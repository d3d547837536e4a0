/** What the user types reaches the relay's reader in order and nothing else does. */
module InputArrives {
  import opened Common
  import opened Session
  import Delivery
  import DeliveryLaws
  import opened Client
  import ClientLaws
  import ClientDisplay
  import Sending
  import Wire
  import opened EndToEnd
  import EndToEndLaws

  /** The input among some requests, in order. */
  function InputOf(requests: seq<ClientFrame>): Bytes {
    if requests == [] then []
    else
      var last := requests[|requests| - 1];
      InputOf(requests[..|requests| - 1]) + if last.Input? then last.data else []
  }

  lemma {:induction false} RequestsCarryTheInput(sent: seq<SentFrame>, gen: nat)
    ensures InputOf(Requests(sent, gen)) == Sending.InputOn(sent, gen)
  {
    if sent != [] {
      var init, last := sent[..|sent| - 1], sent[|sent| - 1];
      RequestsCarryTheInput(init, gen);
      if last.gen == gen {
        assert Requests(sent, gen)[..|Requests(sent, gen)| - 1] == Requests(init, gen);
      } else {
        assert Requests(sent, gen) == Requests(init, gen);
        assert InputOf(Requests(init, gen)) + [] == InputOf(Requests(init, gen));
      }
    }
  }

  lemma {:induction false} InputOfPrefix(requests: seq<ClientFrame>, n: nat)
    requires n <= |requests|
    ensures InputOf(requests[..n]) <= InputOf(requests)
  {
    if n < |requests| {
      var init := requests[..|requests| - 1];
      InputOfPrefix(init, n);
      assert init[..n] == requests[..n];
    } else {
      assert requests[..n] == requests;
    }
  }

  // --- The reader never gets ahead ---

  ghost predicate ServedSent(links: map<nat, Link>, sent: seq<SentFrame>) {
    forall g :: g in links ==> links[g].served <= |Requests(sent, g)|
  }

  lemma {:induction false} MoreRequests(sent: seq<SentFrame>, n: nat, gen: nat)
    requires n <= |sent|
    ensures |Requests(sent[..n], gen)| <= |Requests(sent, gen)|
  {
    if n < |sent| {
      var init := sent[..|sent| - 1];
      MoreRequests(init, n, gen);
      assert init[..n] == sent[..n];
    } else {
      assert sent[..n] == sent;
    }
  }

  lemma SendingServes(links: map<nat, Link>, sent: seq<SentFrame>, sent1: seq<SentFrame>)
    requires ServedSent(links, sent) && sent <= sent1
    ensures ServedSent(links, sent1)
  {
    forall g | g in links
      ensures links[g].served <= |Requests(sent1, g)|
    {
      assert sent1[..|sent|] == sent;
      MoreRequests(sent1, |sent|, g);
    }
  }

  lemma OneLinkServes(links: map<nat, Link>, sent: seq<SentFrame>, gen: nat, l: Link)
    requires ServedSent(links, sent) && l.served <= |Requests(sent, gen)|
    ensures ServedSent(links[gen := l], sent)
  {
  }

  lemma StepServes(sys: System, step: Step)
    requires ServedSent(sys.links, sys.tab.log.sent)
    ensures ServedSent(Advance(sys, step).links, Advance(sys, step).tab.log.sent)
  {
    if CanStep(sys, step) {
      match step {
        case Relay(_) =>
        case Attach(gen, s, _) => OneLinkServes(sys.links, sys.tab.log.sent, gen, Link(s, [], 0, 0, true));
        case PumpWrite(gen) => OneLinkServes(sys.links, sys.tab.log.sent, gen, Advance(sys, step).links[gen]);
        case Serve(gen, _, _, _) => OneLinkServes(sys.links, sys.tab.log.sent, gen, Advance(sys, step).links[gen]);
        case Arrive(gen) =>
          var l := sys.links[gen];
          ClientLaws.HandleSends(sys.tab, FrameArrives(gen, l.written[l.read]));
          SendingServes(sys.links, sys.tab.log.sent, Advance(sys, step).tab.log.sent);
          OneLinkServes(sys.links, Advance(sys, step).tab.log.sent, gen, Advance(sys, step).links[gen]);
        case OnTab(e) =>
          ClientLaws.HandleSends(sys.tab, e);
          SendingServes(sys.links, sys.tab.log.sent, Advance(sys, step).tab.log.sent);
      }
    }
  }

  lemma {:induction false} RunServes(sys: System, steps: seq<Step>)
    requires ServedSent(sys.links, sys.tab.log.sent)
    ensures ServedSent(AdvanceAll(sys, steps).links, AdvanceAll(sys, steps).tab.log.sent)
    decreases |steps|
  {
    if steps != [] {
      StepServes(sys, steps[0]);
      RunServes(Advance(sys, steps[0]), steps[1..]);
    }
  }

  /** In every run the input the relay's reader has handled on a socket is a beginning of
      what was typed while the tab was ready on it: in order, and nothing else. */
  lemma InputArrivesInOrder(u: Setup, steps: seq<Step>, g: nat)
    requires g in Reached(u, steps).links
    ensures var sys := Reached(u, steps);
            var requests := Requests(sys.tab.log.sent, g);
            && sys.links[g].served <= |requests|
            && InputOf(requests[..sys.links[g].served])
               <= Sending.TypedOn(ClientDisplay.Begun(u.tab), EndToEndLaws.TabEvents(Start(u), steps), g)
  {
    var sys := Reached(u, steps);
    RunServes(Start(u), steps);
    InputOfPrefix(Requests(sys.tab.log.sent, g), sys.links[g].served);
    RequestsCarryTheInput(sys.tab.log.sent, g);
    EndToEndLaws.TabRuns(Start(u), steps);
    Sending.InputSentIsWhatWasTyped(u.tab, EndToEndLaws.TabEvents(Start(u), steps), g);
  }

  /** A reader that has stopped handles nothing more, whatever happens. */
  lemma {:induction false} StoppedReadersStay(sys: System, steps: seq<Step>, g: nat)
    requires g in sys.links && !sys.links[g].reading
    ensures g in AdvanceAll(sys, steps).links && !AdvanceAll(sys, steps).links[g].reading
    ensures AdvanceAll(sys, steps).links[g].served == sys.links[g].served
    decreases |steps|
  {
    if steps != [] {
      StoppedReaderStays(sys, steps[0], g);
      StoppedReadersStay(Advance(sys, steps[0]), steps[1..], g);
    }
  }

  lemma StoppedReaderStays(sys: System, step: Step, g: nat)
    requires g in sys.links && !sys.links[g].reading
    ensures g in Advance(sys, step).links && !Advance(sys, step).links[g].reading
    ensures Advance(sys, step).links[g].served == sys.links[g].served
  {
  }

  /** A reader that goes on can handle whatever is left, and other subscribers than those of
      this client's sockets are served as ever. */
  lemma NothingIsHeldUp(sys: System, g: nat, now: int, a: Delivery.Action)
    ensures g in sys.links && sys.links[g].reading && sys.links[g].served < |Requests(sys.tab.log.sent, g)| ==>
              Advance(sys, Serve(g, Wire.Free, Wire.Done, now)).links[g].served == sys.links[g].served + 1
    ensures (forall h :: h in sys.links ==> a != Delivery.Dequeue(sys.links[h].sub)) ==>
              Advance(sys, Relay(a)).relay == Delivery.Next(sys.relay, a)
  {
  }

  /** Handling a request does to the session and the socket what it does for any client, and
      nothing to the tab or to any other socket. */
  lemma WhatServingDoes(sys: System, g: nat, check: Wire.Check, outcome: Wire.Outcome, now: int)
    requires CanStep(sys, Serve(g, check, outcome, now))
    ensures var f, next := Requests(sys.tab.log.sent, g)[sys.links[g].served], Advance(sys, Serve(g, check, outcome, now));
            && next.tab == sys.tab && next.links.Keys == sys.links.Keys
            && (forall h :: h in sys.links && h != g ==> next.links[h] == sys.links[h])
            && next.links[g].reading == !(f.Input? && outcome == Wire.Failed)
            && next.links[g].written == sys.links[g].written + (if f.Ping? then [Pong]
                                                                else if f.ResizeTo? && outcome == Wire.Failed then [Error([])]
                                                                else [])
            && (f.Input? && outcome == Wire.Done ==> next.relay.core == sys.relay.core.(lastIO := now))
            && (f.ResizeTo? && outcome == Wire.Done && 1 <= f.cols <= 500 && 1 <= f.rows <= 200 ==>
                  next.relay.core == sys.relay.core.(cols := f.cols, rows := f.rows, repaintUntil := Some(now + 750_000_000)))
            && (f.Ping? || outcome != Wire.Done ==> next.relay == sys.relay)
  {
  }
}
