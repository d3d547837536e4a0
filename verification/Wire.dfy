/** One WebSocket of the relay and any client at its other end: the writer takes
    frames off the subscriber's queue, the reader handles what the client sends and
    answers some of it directly. Which of them writes first? */
module Wire {
  import opened Common
  import opened Session
  import opened Client
  import Delivery
  import DeliveryLaws

  /** What the session says, under its lock, when the reader takes up a request. */
  datatype Check = Free | Refused | NothingToDo

  function Checked(core: Core, f: ClientFrame): Check {
    match f
    case Input(_) => if core.closed then Refused else Free
    case ResizeTo(cols, rows) =>
      if !ValidSize(cols, rows) || core.closed then Refused
      else if core.cols == cols && core.rows == rows then NothingToDo
      else Free
    case Ping => Free
  }

  /** How handling a request went: it took effect, found nothing to do, or failed. */
  datatype Outcome = Done | Same | Failed

  /** Whatever happens to the session meanwhile, only what was free may still fail or not. */
  predicate CanEnd(f: ClientFrame, check: Check, outcome: Outcome) {
    match check
    case Free => outcome == Done || (outcome == Failed && !f.Ping?)
    case Refused => outcome == Failed
    case NothingToDo => outcome == Same
  }

  /** What the reader writes to the socket itself. */
  function Answer(f: ClientFrame, outcome: Outcome): seq<Frame> {
    match f
    case Ping => [Pong]
    case ResizeTo(_, _) => if outcome == Failed then [Error([])] else []
    case Input(_) => []
  }

  function Effect(relay: Delivery.State, f: ClientFrame, outcome: Outcome, now: int): Delivery.State {
    if outcome != Done then relay
    else match f
      case Input(_) => Delivery.Next(relay, Delivery.InputWritten(now))
      case ResizeTo(cols, rows) =>
        if cols < 0 || rows < 0 then relay else Delivery.Next(relay, Delivery.CommitResize(cols, rows, now))
      case Ping => relay
  }

  /** Input that cannot be delivered ends the reader. */
  predicate ReadsOn(f: ClientFrame, outcome: Outcome) {
    !(f.Input? && outcome == Failed)
  }

  /** The request in hand, and what the session said about it. */
  datatype Busy = Busy(f: ClientFrame, check: Check)

  datatype Wire = Wire(
    relay: Delivery.State,
    sub: SubId,
    requests: seq<ClientFrame>,   // sent by the client, oldest first
    taken: nat,                   // how many of them the reader has taken up
    busy: Option<Busy>,
    reading: bool,
    written: seq<Frame>)

  datatype Step =
    | Relay(a: Delivery.Action)
    | Request(f: ClientFrame)
    | Take                                // the reader takes up the next request
    | Finish(outcome: Outcome, now: int)  // and is done with it
    | PumpWrite

  predicate CanStep(w: Wire, step: Step) {
    match step
    case Relay(a) => a != Delivery.Dequeue(w.sub)
    case Request(_) => true
    case Take => w.reading && w.busy.None? && w.taken < |w.requests|
    case Finish(outcome, _) => w.reading && w.busy.Some? && CanEnd(w.busy.value.f, w.busy.value.check, outcome)
    case PumpWrite => w.sub in w.relay.core.members && w.relay.core.members[w.sub].queue != []
  }

  function Advance(w: Wire, step: Step): Wire {
    if !CanStep(w, step) then w
    else match step
      case Relay(a) => w.(relay := Delivery.Next(w.relay, a))
      case Request(f) => w.(requests := w.requests + [f])
      case Take =>
        var f := w.requests[w.taken];
        w.(taken := w.taken + 1, busy := Some(Busy(f, Checked(w.relay.core, f))))
      case Finish(outcome, now) =>
        var f := w.busy.value.f;
        w.(relay := Effect(w.relay, f, outcome, now), busy := None, reading := ReadsOn(f, outcome),
           written := w.written + Answer(f, outcome))
      case PumpWrite =>
        w.(relay := Delivery.Next(w.relay, Delivery.Dequeue(w.sub)),
           written := w.written + [w.relay.core.members[w.sub].queue[0]])
  }

  function AdvanceAll(w: Wire, steps: seq<Step>): Wire
    decreases |steps|
  {
    if steps == [] then w else AdvanceAll(Advance(w, steps[0]), steps[1..])
  }

  /** A socket just attached, to which nothing has been written. */
  ghost predicate Unwritten(w: Wire) {
    && Delivery.Inv(w.relay)
    && Delivery.Known(w.relay, w.sub) && w.relay.past[w.sub].dequeued == []
    && w.written == []
  }

  /** Handling a request is at most one step of the session, and a plain one. */
  function EffectStep(f: ClientFrame, now: int): Option<Delivery.Action> {
    match f
    case Input(_) => Some(Delivery.InputWritten(now))
    case ResizeTo(cols, rows) => if cols < 0 || rows < 0 then None else Some(Delivery.CommitResize(cols, rows, now))
    case Ping => None
  }

  lemma EffectIsStep(relay: Delivery.State, f: ClientFrame, outcome: Outcome, now: int)
    ensures Effect(relay, f, outcome, now) == relay
            || (EffectStep(f, now).Some?
                && Effect(relay, f, outcome, now) == Delivery.Next(relay, EffectStep(f, now).value))
  {
  }

  lemma PlainTouchesNobody(relay: Delivery.State, a: Delivery.Action)
    requires a.InputWritten? || a.CommitResize?
    ensures Delivery.Next(relay, a).past == relay.past && Delivery.Next(relay, a).core.members == relay.core.members
  {
  }

  lemma EffectTouchesNobody(relay: Delivery.State, f: ClientFrame, outcome: Outcome, now: int)
    ensures Effect(relay, f, outcome, now).past == relay.past
    ensures Effect(relay, f, outcome, now).core.members == relay.core.members
  {
    EffectIsStep(relay, f, outcome, now);
    if EffectStep(f, now).Some? {
      PlainTouchesNobody(relay, EffectStep(f, now).value);
    }
  }

  lemma EffectKeeps(relay: Delivery.State, f: ClientFrame, outcome: Outcome, now: int)
    requires Delivery.Inv(relay)
    ensures var next := Effect(relay, f, outcome, now);
            Delivery.Inv(next) && next.past == relay.past && next.core.members == relay.core.members
  {
    EffectIsStep(relay, f, outcome, now);
    EffectTouchesNobody(relay, f, outcome, now);
    if EffectStep(f, now).Some? {
      Delivery.StepKeepsInv(relay, EffectStep(f, now).value);
    }
  }

  lemma RelayKeeps(relay: Delivery.State, a: Delivery.Action, s: SubId)
    requires Delivery.Known(relay, s) && a != Delivery.Dequeue(s)
    ensures var next := Delivery.Next(relay, a);
            Delivery.Known(next, s) && next.past[s].dequeued == relay.past[s].dequeued
  {
  }

  /** What is first in the queue of a subscriber that nothing has been taken from. */
  lemma QueueStartsWithReplay(m: Member, p: Delivery.Past, chunks: seq<Delivery.Chunk>, cap: nat)
    requires Delivery.Served(m, p, chunks, cap) && p.dequeued == []
    ensures m.queue != [] && m.queue[0].Replay?
  {
    assert [] + m.queue == m.queue;
  }

  /** The step writes the first frame, and it is an answer. */
  predicate Overtakes(w: Wire, step: Step) {
    step.Finish? && CanStep(w, step) && Answer(w.busy.value.f, step.outcome) != []
  }

  /** The reader answers a request before the writer writes at all. */
  predicate Overtaken(w: Wire, steps: seq<Step>)
    decreases |steps|
  {
    steps != [] &&
    (|| Overtakes(w, steps[0])
     || (!(steps[0].PumpWrite? && CanStep(w, steps[0])) && Overtaken(Advance(w, steps[0]), steps[1..])))
  }

  lemma RelayUnwritten(w: Wire, a: Delivery.Action)
    requires Unwritten(w) && a != Delivery.Dequeue(w.sub)
    ensures Unwritten(w.(relay := Delivery.Next(w.relay, a)))
  {
    Delivery.StepKeepsInv(w.relay, a);
    RelayKeeps(w.relay, a, w.sub);
  }

  lemma FinishUnwritten(w: Wire, f: ClientFrame, outcome: Outcome, now: int)
    requires Unwritten(w)
    ensures Unwritten(w.(relay := Effect(w.relay, f, outcome, now)))
  {
    EffectKeeps(w.relay, f, outcome, now);
  }

  lemma StepUnwritten(w: Wire, step: Step)
    requires Unwritten(w) && !Overtakes(w, step) && !(step.PumpWrite? && CanStep(w, step))
    ensures Unwritten(Advance(w, step))
  {
    if CanStep(w, step) {
      match step {
        case Relay(a) => RelayUnwritten(w, a);
        case Request(_) =>
        case Take =>
        case Finish(outcome, now) => FinishUnwritten(w, w.busy.value.f, outcome, now);
      }
    }
  }

  lemma {:induction false} WrittenStays(w: Wire, steps: seq<Step>)
    ensures w.written <= AdvanceAll(w, steps).written
    decreases |steps|
  {
    if steps != [] {
      WrittenStays(Advance(w, steps[0]), steps[1..]);
    }
  }

  lemma FirstPumped(w: Wire)
    requires Unwritten(w) && CanStep(w, PumpWrite)
    ensures var written := Advance(w, PumpWrite).written;
            |written| == 1 && written[0].Replay?
  {
    assert Delivery.MemberOk(w.relay, w.sub);
    QueueStartsWithReplay(w.relay.core.members[w.sub], w.relay.past[w.sub], w.relay.chunks, w.relay.core.cap);
  }

  lemma FirstAnswered(w: Wire, step: Step)
    requires w.written == [] && Overtakes(w, step)
    ensures var written := Advance(w, step).written;
            written != [] && !written[0].Replay?
  {
    assert Advance(w, step).written == Answer(w.busy.value.f, step.outcome);
  }

  lemma {:induction false} FirstUnlessOvertaken(w: Wire, steps: seq<Step>)
    requires Unwritten(w)
    ensures var written := AdvanceAll(w, steps).written;
            && (Overtaken(w, steps) ==> written != [])
            && (written != [] ==> (written[0].Replay? <==> !Overtaken(w, steps)))
    decreases |steps|
  {
    if steps != [] {
      var step, next := steps[0], Advance(w, steps[0]);
      if Overtakes(w, step) {
        WrittenStays(next, steps[1..]);
        FirstAnswered(w, step);
      } else if step.PumpWrite? && CanStep(w, step) {
        FirstPumped(w);
        WrittenStays(next, steps[1..]);
      } else {
        StepUnwritten(w, step);
        FirstUnlessOvertaken(next, steps[1..]);
      }
    }
  }

  /** A socket attached to a session in any state it can be in. */
  function Attached(b: DeliveryLaws.Beginning, actions: seq<Delivery.Action>, s: SubId, at: int): Wire {
    Wire(Delivery.Next(DeliveryLaws.Reached(b, actions), Delivery.Subscribe(s, at)), s, [], 0, None, true, [])
  }

  /** The session is open, and the subscriber a new one. */
  predicate CanAttach(b: DeliveryLaws.Beginning, actions: seq<Delivery.Action>, s: SubId) {
    s !in DeliveryLaws.Reached(b, actions).core.members && !DeliveryLaws.Reached(b, actions).core.closed
  }

  lemma AttachedIsUnwritten(b: DeliveryLaws.Beginning, actions: seq<Delivery.Action>, s: SubId, at: int)
    requires CanAttach(b, actions, s)
    ensures Unwritten(Attached(b, actions, s, at))
  {
    DeliveryLaws.ReachedInv(b, actions);
    Delivery.StepKeepsInv(DeliveryLaws.Reached(b, actions), Delivery.Subscribe(s, at));
  }

  /** For any client, on a socket attached at any moment and in every run: the first frame
      on the wire is the replay unless the reader answered a request before the writer
      wrote at all. */
  lemma ReplayFirstUnlessOvertaken(b: DeliveryLaws.Beginning, actions: seq<Delivery.Action>, s: SubId, at: int,
                                   steps: seq<Step>)
    requires CanAttach(b, actions, s)
    ensures var w := Attached(b, actions, s, at);
            var written := AdvanceAll(w, steps).written;
            && (Overtaken(w, steps) ==> written != [])
            && (written != [] ==> (written[0].Replay? <==> !Overtaken(w, steps)))
  {
    AttachedIsUnwritten(b, actions, s, at);
    FirstUnlessOvertaken(Attached(b, actions, s, at), steps);
  }

  /** As long as the wire carries nothing, the queue has given nothing up. */
  lemma {:induction false} UnwrittenStays(w: Wire, steps: seq<Step>)
    requires Unwritten(w) && AdvanceAll(w, steps).written == []
    ensures Unwritten(AdvanceAll(w, steps))
    decreases |steps|
  {
    if steps != [] {
      var step, next := steps[0], Advance(w, steps[0]);
      WrittenStays(next, steps[1..]);
      StepUnwritten(w, step);
      UnwrittenStays(next, steps[1..]);
    }
  }

  // --- What a client can do about it ---

  /** The reader will get to nothing but input: no more is waiting, or the session is
      closed and refuses the next, which ends the reader. */
  predicate OnlyInputWaits(w: Wire) {
    || (forall i :: w.taken <= i < |w.requests| ==> w.requests[i].Input?)
    || (w.relay.core.closed && w.taken < |w.requests| && w.requests[w.taken].Input?)
  }

  /** The request in hand gets no answer. */
  predicate NoAnswer(b: Busy) {
    b.f.Input? || (b.f.ResizeTo? && b.check == NothingToDo)
  }

  predicate EndsReader(b: Busy) {
    b.f.Input? && b.check == Refused
  }

  /** Nothing the client has sent will be answered. */
  predicate StaysSilent(w: Wire) {
    !w.reading ||
    match w.busy
    case None => OnlyInputWaits(w)
    case Some(b) => EndsReader(b) || (NoAnswer(b) && OnlyInputWaits(w))
  }

  predicate NoRequest(steps: seq<Step>) {
    forall step :: step in steps ==> !step.Request?
  }

  predicate StartsWithReplay(written: seq<Frame>) {
    written != [] ==> written[0].Replay?
  }

  /** Whatever happens, short of new requests, the first frame is the replay. */
  ghost predicate ReplayIsSureToBeFirst(w: Wire) {
    forall steps :: NoRequest(steps) ==> StartsWithReplay(AdvanceAll(w, steps).written)
  }

  lemma ClosedStays(st: Delivery.State, a: Delivery.Action)
    requires st.core.closed
    ensures Delivery.Next(st, a).core.closed
  {
  }

  lemma EffectLeavesOpen(st: Delivery.State, f: ClientFrame, outcome: Outcome, now: int)
    ensures Effect(st, f, outcome, now).core.closed == st.core.closed
  {
  }

  lemma SilenceLasts(w: Wire, step: Step)
    requires StaysSilent(w) && !step.Request?
    ensures StaysSilent(Advance(w, step)) && !Overtakes(w, step)
  {
    if CanStep(w, step) {
      match step {
        case Relay(a) =>
          if w.relay.core.closed {
            ClosedStays(w.relay, a);
          }
        case Take =>
        case Finish(outcome, now) => EffectLeavesOpen(w.relay, w.busy.value.f, outcome, now);
        case PumpWrite => ClosedAfterDequeue(w.relay, w.sub);
      }
    }
  }

  lemma ClosedAfterDequeue(st: Delivery.State, s: SubId)
    ensures Delivery.Next(st, Delivery.Dequeue(s)).core.closed == st.core.closed
  {
  }

  lemma {:induction false} SilentIsNeverOvertaken(w: Wire, steps: seq<Step>)
    requires StaysSilent(w) && NoRequest(steps)
    ensures !Overtaken(w, steps)
    decreases |steps|
  {
    if steps != [] {
      assert steps[0] in steps;
      SilenceLasts(w, steps[0]);
      SilentIsNeverOvertaken(Advance(w, steps[0]), steps[1..]);
    }
  }

  lemma UnsureBefore(w: Wire, step: Step)
    requires !step.Request? && !ReplayIsSureToBeFirst(Advance(w, step))
    ensures !ReplayIsSureToBeFirst(w)
  {
    var steps :| NoRequest(steps) && !StartsWithReplay(AdvanceAll(Advance(w, step), steps).written);
    assert ([step] + steps)[1..] == steps;
    assert NoRequest([step] + steps);
  }

  lemma UnsureNow(w: Wire)
    requires w.written != [] && !w.written[0].Replay?
    ensures !ReplayIsSureToBeFirst(w)
  {
    assert AdvanceAll(w, []) == w;
    assert NoRequest([]);
  }

  /** How the request in hand may end if it is to be answered or, else, to make way. */
  function Ending(b: Busy): Outcome {
    match b.check
    case Refused => Failed
    case NothingToDo => Same
    case Free => if b.f.ResizeTo? then Failed else Done
  }

  function Left(w: Wire): int {
    2 * (|w.requests| - w.taken) + if w.busy.Some? then 1 else 0
  }

  /** The reader gets to the first request that is not input, and answers it: a resize
      may fail, if only because the session is closed first. */
  lemma {:induction false} OthersMayBeAnswered(w: Wire)
    requires w.written == [] && !StaysSilent(w) && w.taken <= |w.requests|
    ensures !ReplayIsSureToBeFirst(w)
    decreases Left(w)
  {
    if w.busy.Some? {
      var b := w.busy.value;
      var finish := Finish(Ending(b), 0);
      var next := Advance(w, finish);
      EffectLeavesOpen(w.relay, b.f, Ending(b), 0);
      if NoAnswer(b) {
        OthersMayBeAnswered(next);
      } else {
        assert next.written == Answer(b.f, Ending(b));
        UnsureNow(next);
      }
      UnsureBefore(w, finish);
    } else if w.requests[w.taken].ResizeTo? {
      var kill := Relay(Delivery.Kill);
      var killed := Advance(w, kill);
      assert Advance(killed, Take).busy.value.check == Refused;
      OthersMayBeAnswered(Advance(killed, Take));
      UnsureBefore(killed, Take);
      UnsureBefore(w, kill);
    } else {
      OthersMayBeAnswered(Advance(w, Take));
      UnsureBefore(w, Take);
    }
  }

  lemma {:induction false} TakenInOrder(w: Wire, steps: seq<Step>)
    requires w.taken <= |w.requests|
    ensures AdvanceAll(w, steps).taken <= |AdvanceAll(w, steps).requests|
    decreases |steps|
  {
    if steps != [] {
      TakenInOrder(Advance(w, steps[0]), steps[1..]);
    }
  }

  /** On a socket attached at any moment, after any run that has written nothing to it: the
      client is sure to see the replay first if and only if the reader has nothing but
      input left to get to. A ping or a resize it must keep until then. */
  lemma SureIffOnlyInputSent(b: DeliveryLaws.Beginning, actions: seq<Delivery.Action>, s: SubId, at: int,
                             steps: seq<Step>)
    requires CanAttach(b, actions, s) && AdvanceAll(Attached(b, actions, s, at), steps).written == []
    ensures var w := AdvanceAll(Attached(b, actions, s, at), steps);
            ReplayIsSureToBeFirst(w) <==> StaysSilent(w)
  {
    var w := AdvanceAll(Attached(b, actions, s, at), steps);
    AttachedIsUnwritten(b, actions, s, at);
    UnwrittenStays(Attached(b, actions, s, at), steps);
    TakenInOrder(Attached(b, actions, s, at), steps);
    if StaysSilent(w) {
      forall rest | NoRequest(rest)
        ensures StartsWithReplay(AdvanceAll(w, rest).written)
      {
        SilentIsNeverOvertaken(w, rest);
        FirstUnlessOvertaken(w, rest);
      }
    } else {
      OthersMayBeAnswered(w);
    }
  }

  /** An early ping is answered before the replay. */
  lemma EarlyPingIsAnsweredFirst(b: DeliveryLaws.Beginning, actions: seq<Delivery.Action>, s: SubId, at: int)
    ensures AdvanceAll(Attached(b, actions, s, at), [Request(Ping), Take, Finish(Done, 0)]).written == [Pong]
  {
    var w := Attached(b, actions, s, at);
    var steps := [Request(Ping), Take, Finish(Done, 0)];
    assert steps[1..] == [Take, Finish(Done, 0)] && steps[1..][1..] == [Finish(Done, 0)];
    assert steps[1..][1..][1..] == [];
    var w1 := Advance(w, steps[0]);
    var w2 := Advance(w1, Take);
    assert w2.busy == Some(Busy(Ping, Free));
    assert AdvanceAll(w1, steps[1..]) == AdvanceAll(w2, steps[1..][1..]);
    assert AdvanceAll(w2, [Finish(Done, 0)]) == AdvanceAll(Advance(w2, Finish(Done, 0)), []);
    assert [] + [Pong] == [Pong];
  }

  /** The writer can write at once, and what it writes first is the whole scrollback. */
  lemma TheReplayCanBeWritten(b: DeliveryLaws.Beginning, actions: seq<Delivery.Action>, s: SubId, at: int)
    requires CanAttach(b, actions, s)
    ensures AdvanceAll(Attached(b, actions, s, at), [PumpWrite]).written
         == [Replay(DeliveryLaws.Reached(b, actions).core.scrollback)]
  {
    var w := Attached(b, actions, s, at);
    assert [PumpWrite][1..] == [];
    assert AdvanceAll(w, [PumpWrite]) == AdvanceAll(Advance(w, PumpWrite), []);
    assert w.relay.core.members[s].queue == [Replay(DeliveryLaws.Reached(b, actions).core.scrollback)];
  }

  /** The frames on the wire that came off the queue. */
  function FromQueue(written: seq<Frame>): seq<Frame> {
    if written == [] then []
    else
      var last := written[|written| - 1];
      FromQueue(written[..|written| - 1]) + if last.Pong? || last.Error? then [] else [last]
  }

  ghost predicate InStep(w: Wire) {
    && Delivery.Inv(w.relay) && Delivery.Known(w.relay, w.sub)
    && FromQueue(w.written) == w.relay.past[w.sub].dequeued
  }

  lemma WritesOne(written: seq<Frame>, f: Frame)
    ensures FromQueue(written + [f]) == FromQueue(written) + if f.Pong? || f.Error? then [] else [f]
  {
    assert (written + [f])[..|written|] == written;
  }

  lemma AnswersComeFromElsewhere(written: seq<Frame>, f: ClientFrame, outcome: Outcome)
    ensures FromQueue(written + Answer(f, outcome)) == FromQueue(written)
  {
    if Answer(f, outcome) == [] {
      assert written + [] == written;
    } else {
      WritesOne(written, Answer(f, outcome)[0]);
      assert FromQueue(written) + [] == FromQueue(written);
    }
  }

  lemma QueueHoldsNoAnswer(m: Member, p: Delivery.Past, chunks: seq<Delivery.Chunk>, cap: nat)
    requires Delivery.Served(m, p, chunks, cap) && m.queue != []
    ensures !m.queue[0].Pong? && !m.queue[0].Error?
  {
    assert p.enqueued[|p.dequeued|] == m.queue[0];
  }

  lemma DequeueTakes(st: Delivery.State, s: SubId)
    requires Delivery.Known(st, s) && st.core.members[s].queue != []
    ensures var next := Delivery.Next(st, Delivery.Dequeue(s));
            Delivery.Known(next, s) && next.past[s].dequeued == st.past[s].dequeued + [st.core.members[s].queue[0]]
  {
  }

  lemma PumpStaysInStep(w: Wire)
    requires InStep(w) && CanStep(w, PumpWrite)
    ensures InStep(Advance(w, PumpWrite))
  {
    assert Delivery.MemberOk(w.relay, w.sub);
    var m := w.relay.core.members[w.sub];
    QueueHoldsNoAnswer(m, w.relay.past[w.sub], w.relay.chunks, w.relay.core.cap);
    WritesOne(w.written, m.queue[0]);
    DequeueTakes(w.relay, w.sub);
    Delivery.StepKeepsInv(w.relay, Delivery.Dequeue(w.sub));
  }

  lemma StepStaysInStep(w: Wire, step: Step)
    requires InStep(w)
    ensures InStep(Advance(w, step))
  {
    if CanStep(w, step) {
      match step {
        case Relay(a) =>
          Delivery.StepKeepsInv(w.relay, a);
          RelayKeeps(w.relay, a, w.sub);
        case Request(_) =>
        case Take =>
        case Finish(outcome, now) =>
          EffectKeeps(w.relay, w.busy.value.f, outcome, now);
          AnswersComeFromElsewhere(w.written, w.busy.value.f, outcome);
        case PumpWrite => PumpStaysInStep(w);
      }
    }
  }

  lemma {:induction false} RunStaysInStep(w: Wire, steps: seq<Step>)
    requires InStep(w)
    ensures InStep(AdvanceAll(w, steps))
    decreases |steps|
  {
    if steps != [] {
      StepStaysInStep(w, steps[0]);
      RunStaysInStep(Advance(w, steps[0]), steps[1..]);
    }
  }

  /** For any client and in every run: what is on the wire, direct answers apart, is what the
      subscriber's queue has given up, each frame once and in order. */
  lemma WireCarriesTheQueue(b: DeliveryLaws.Beginning, actions: seq<Delivery.Action>, s: SubId, at: int, steps: seq<Step>)
    requires CanAttach(b, actions, s)
    ensures var w := AdvanceAll(Attached(b, actions, s, at), steps);
            s in w.relay.past && FromQueue(w.written) == w.relay.past[s].dequeued
            && FromQueue(w.written) <= w.relay.past[s].enqueued
  {
    var w := AdvanceAll(Attached(b, actions, s, at), steps);
    AttachedIsUnwritten(b, actions, s, at);
    RunStaysInStep(Attached(b, actions, s, at), steps);
    SameSub(Attached(b, actions, s, at), steps);
    assert Delivery.MemberOk(w.relay, s);
  }

  lemma {:induction false} SameSub(w: Wire, steps: seq<Step>)
    ensures AdvanceAll(w, steps).sub == w.sub
    decreases |steps|
  {
    if steps != [] {
      SameSub(Advance(w, steps[0]), steps[1..]);
    }
  }

  // --- What a request does ---

  /** Whether the session refuses a request: it is closed, or the size is out of bounds. */
  predicate Refuses(core: Core, f: ClientFrame) {
    match f
    case Input(_) => core.closed
    case ResizeTo(cols, rows) => core.closed || cols < 1 || cols > 500 || rows < 1 || rows > 200
    case Ping => false
  }

  predicate AsksForNothing(core: Core, f: ClientFrame) {
    f.ResizeTo? && !Refuses(core, f) && core.cols == f.cols && core.rows == f.rows
  }

  /** A request that is refused fails and one that asks for nothing does nothing; any other
      goes through or, unless it is a ping, fails. */
  lemma HowRequestsEnd(w: Wire, outcome: Outcome, now: int)
    requires CanStep(w, Take)
    ensures var f := w.requests[w.taken];
            CanStep(Advance(w, Take), Finish(outcome, now))
            <==> if Refuses(w.relay.core, f) then outcome == Failed
                 else if AsksForNothing(w.relay.core, f) then outcome == Same
                 else outcome == Done || (outcome == Failed && !f.Ping?)
  {
  }

  /** Input that goes through counts as activity; a resize that does sets size and window;
      a ping is answered, and so is a resize that fails; input that fails ends the reader. */
  lemma WhatRequestsDo(w: Wire, outcome: Outcome, now: int)
    requires CanStep(w, Take) && CanStep(Advance(w, Take), Finish(outcome, now))
    ensures var f := w.requests[w.taken];
            var end := Advance(Advance(w, Take), Finish(outcome, now));
            && end.taken == w.taken + 1 && end.busy == None && end.requests == w.requests
            && end.written == w.written + (if f.Ping? then [Pong] else if f.ResizeTo? && outcome == Failed then [Error([])] else [])
            && end.reading == !(f.Input? && outcome == Failed)
            && end.relay == if f.Ping? || outcome != Done then w.relay
                            else if f.Input? then w.relay.(core := w.relay.core.(lastIO := now))
                            else w.relay.(core := w.relay.core.(
                                            cols := f.cols, rows := f.rows, repaintUntil := Some(now + 750_000_000)))
  {
  }
}
