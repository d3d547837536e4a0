/** What a run's own actions say about the session: which output was suppressed as a
    repaint, who was sent each chunk, and what the session remembers. */
module SessionHistory {
  import opened Common
  import Cwd
  import opened Session
  import opened Delivery
  import opened DeliveryLaws

  lemma {:induction false} RunSnoc(st: State, actions: seq<Action>, a: Action)
    ensures Run(st, actions + [a]) == Next(Run(st, actions), a)
    decreases |actions|
  {
    if actions == [] {
      assert [] + [a] == [a] && [a][1..] == [];
    } else {
      assert (actions + [a])[1..] == actions[1..] + [a];
      RunSnoc(Next(st, actions[0]), actions[1..], a);
    }
  }

  lemma ReachedSnoc(b: Beginning, actions: seq<Action>)
    requires actions != []
    ensures var n := |actions| - 1; Reached(b, actions) == Next(Reached(b, actions[..n]), actions[n])
  {
    var n := |actions| - 1;
    assert actions == actions[..n] + [actions[n]];
    RunSnoc(Begun(b), actions[..n], actions[n]);
  }

  // --- Repaints ---

  ghost predicate Around(data: Bytes, before: Bytes, code: Bytes, after: Bytes) {
    data == before + code + after
  }

  ghost predicate Shows(data: Bytes, code: Bytes) {
    exists before: Bytes, after: Bytes :: Around(data, before, code, after)
  }

  ghost predicate ErasesTwice(data: Bytes) {
    exists before: Bytes, after: Bytes ::
      Around(data, before, [0x1b, 0x5b, 0x4b], after) && Shows(after, [0x1b, 0x5b, 0x4b])
  }

  /** Cursor hidden, sent home, shown again, and at least two lines erased. */
  ghost predicate IsRepaint(data: Bytes) {
    && Shows(data, [0x1b, 0x5b, 0x3f, 0x32, 0x35, 0x6c])
    && Shows(data, [0x1b, 0x5b, 0x48])
    && Shows(data, [0x1b, 0x5b, 0x3f, 0x32, 0x35, 0x68])
    && ErasesTwice(data)
  }

  lemma OccursMeansAround(data: Bytes, code: Bytes, i: nat)
    requires OccursAt(data, code, i)
    ensures Around(data, data[..i], code, data[i + |code|..])
  {
  }

  lemma AroundMeansOccurs(data: Bytes, before: Bytes, code: Bytes, after: Bytes)
    requires Around(data, before, code, after)
    ensures OccursAt(data, code, |before|) && data[|before| + |code|..] == after
  {
  }

  lemma ContainsMeansShows(data: Bytes, code: Bytes)
    ensures Contains(data, code) <==> Shows(data, code)
  {
    if Contains(data, code) {
      var i :| 0 <= i <= |data| && OccursAt(data, code, i);
      OccursMeansAround(data, code, i);
    }
    if Shows(data, code) {
      var before: Bytes, after: Bytes :| Around(data, before, code, after);
      AroundMeansOccurs(data, before, code, after);
    }
  }

  lemma OccursLater(data: Bytes, code: Bytes, from: nat, k: nat)
    requires from <= |data|
    ensures OccursAt(data[from..], code, k) <==> OccursAt(data, code, from + k)
  {
    if from + k + |code| <= |data| {
      assert data[from..][k..k + |code|] == data[from + k..from + k + |code|];
    }
  }

  /** Two lines erased are erased one after the other. */
  lemma ErasesDoNotOverlap(data: Bytes, i: nat, j: nat)
    requires i < j && OccursAt(data, ERASE_LINE, i) && OccursAt(data, ERASE_LINE, j)
    ensures i + 3 <= j
  {
    assert data[i] == data[i..i + 3][0] && data[i + 1] == data[i..i + 3][1] && data[i + 2] == data[i..i + 3][2];
    assert data[j] == data[j..j + 3][0];
  }

  lemma TwoErases(data: Bytes, i: nat, j: nat)
    requires i < j && OccursAt(data, ERASE_LINE, i) && OccursAt(data, ERASE_LINE, j)
    ensures ErasesTwice(data)
  {
    ErasesDoNotOverlap(data, i, j);
    OccursMeansAround(data, ERASE_LINE, i);
    OccursLater(data, ERASE_LINE, i + 3, j - (i + 3));
    assert Contains(data[i + 3..], ERASE_LINE);
    ContainsMeansShows(data[i + 3..], ERASE_LINE);
  }

  lemma EraseThenErase(data: Bytes, before: Bytes, after: Bytes)
    requires Around(data, before, ERASE_LINE, after) && Shows(after, ERASE_LINE)
    ensures ContainsTwice(data, ERASE_LINE)
  {
    AroundMeansOccurs(data, before, ERASE_LINE, after);
    ContainsMeansShows(after, ERASE_LINE);
    var k :| 0 <= k <= |after| && OccursAt(after, ERASE_LINE, k);
    OccursLater(data, ERASE_LINE, |before| + 3, k);
  }

  lemma TwiceMeansErases(data: Bytes)
    ensures ContainsTwice(data, ERASE_LINE) <==> ErasesTwice(data)
  {
    if ContainsTwice(data, ERASE_LINE) {
      var i, j :| 0 <= i < j <= |data| && OccursAt(data, ERASE_LINE, i) && OccursAt(data, ERASE_LINE, j);
      TwoErases(data, i, j);
    }
    if ErasesTwice(data) {
      var before: Bytes, after: Bytes :|
        Around(data, before, [0x1b, 0x5b, 0x4b], after) && Shows(after, [0x1b, 0x5b, 0x4b]);
      EraseThenErase(data, before, after);
    }
  }

  lemma RepaintsLookLikeIt(data: Bytes)
    ensures LooksLikeRepaint(data) <==> IsRepaint(data)
  {
    ContainsMeansShows(data, HIDE_CURSOR);
    ContainsMeansShows(data, CURSOR_HOME);
    ContainsMeansShows(data, SHOW_CURSOR);
    TwiceMeansErases(data);
    if Shows(data, HIDE_CURSOR) {
      var before: Bytes, after: Bytes :| Around(data, before, HIDE_CURSOR, after);
    }
  }

  // --- The window ---

  predicate Resizes(a: Action) {
    a.CommitResize? && 1 <= a.cols <= 500 && 1 <= a.rows <= 200
  }

  /** A read later than 750 ms after `t`. */
  predicate ReadsAfter(a: Action, t: int) {
    a.Publish? && a.data != [] && a.now > t + 750_000_000
  }

  /** The resize at `i` is the last one, and nothing was read after its window. */
  predicate Opened(actions: seq<Action>, i: nat) {
    && i < |actions| && Resizes(actions[i])
    && forall j :: i < j < |actions| ==> !Resizes(actions[j]) && !ReadsAfter(actions[j], actions[i].now)
  }

  /** `until` is where the window opened by some resize of the run ends. */
  ghost predicate EndsWindow(actions: seq<Action>, until: int) {
    exists i: nat :: Opened(actions, i) && until == actions[i].now + 750_000_000
  }

  lemma OpenedEarlier(actions: seq<Action>, a: Action, i: nat)
    requires i < |actions|
    ensures Opened(actions + [a], i) <==> Opened(actions, i) && !Resizes(a) && !ReadsAfter(a, actions[i].now)
  {
    var more := actions + [a];
    assert forall j :: 0 <= j < |actions| ==> more[j] == actions[j];
    assert more[|actions|] == a;
  }

  lemma WindowGrows(actions: seq<Action>, a: Action, until: int)
    ensures EndsWindow(actions + [a], until)
       <==> if Resizes(a) then until == a.now + 750_000_000
            else EndsWindow(actions, until) && !ReadsAfter(a, until - 750_000_000)
  {
    var more := actions + [a];
    assert more[|actions|] == a;
    if EndsWindow(more, until) {
      var i: nat :| Opened(more, i) && until == more[i].now + 750_000_000;
      if i < |actions| {
        OpenedEarlier(actions, a, i);
      }
    }
    if Resizes(a) {
      assert Opened(more, |actions|);
    } else if EndsWindow(actions, until) {
      var i: nat :| Opened(actions, i) && until == actions[i].now + 750_000_000;
      OpenedEarlier(actions, a, i);
    }
  }

  lemma OthersLeaveWindow(st: State, a: Action)
    requires !a.Publish? && !a.CommitResize?
    ensures Next(st, a).core.repaintUntil == st.core.repaintUntil
  {
  }

  /** The window a session remembers is the one its last resize opened, as long as
      nothing was read after its end. */
  lemma {:induction false} WindowIsOfTheLastResize(b: Beginning, actions: seq<Action>, until: int)
    ensures Reached(b, actions).core.repaintUntil == Some(until) <==> EndsWindow(actions, until)
    decreases |actions|
  {
    if actions != [] {
      var n := |actions| - 1;
      var a := actions[n];
      WindowIsOfTheLastResize(b, actions[..n], until);
      ReachedSnoc(b, actions);
      assert actions == actions[..n] + [a];
      WindowGrows(actions[..n], a, until);
      if !a.Publish? && !a.CommitResize? {
        OthersLeaveWindow(Reached(b, actions[..n]), a);
      }
    }
  }

  /** The run is inside the 750 ms after its last resize; `edge` says whether the last
      instant counts. */
  ghost predicate Redrawing(actions: seq<Action>, now: int, edge: bool) {
    exists i: nat :: Opened(actions, i) && (now < actions[i].now + 750_000_000 || (edge && now == actions[i].now + 750_000_000))
  }

  lemma RedrawingMeans(b: Beginning, actions: seq<Action>, now: int, edge: bool)
    ensures var until := Reached(b, actions).core.repaintUntil;
            Redrawing(actions, now, edge) <==> until.Some? && (now < until.value || (edge && now == until.value))
  {
    var until := Reached(b, actions).core.repaintUntil;
    if until.Some? {
      WindowIsOfTheLastResize(b, actions, until.value);
    }
    if Redrawing(actions, now, edge) {
      var i: nat :| Opened(actions, i) && (now < actions[i].now + 750_000_000 || (edge && now == actions[i].now + 750_000_000));
      assert EndsWindow(actions, actions[i].now + 750_000_000);
      WindowIsOfTheLastResize(b, actions, actions[i].now + 750_000_000);
    }
  }

  // --- What is kept ---

  /** Read within 750 ms of the last resize, and a repaint. */
  ghost predicate Suppressed(actions: seq<Action>, data: Bytes, now: int) {
    Redrawing(actions, now, true) && IsRepaint(data)
  }

  /** A read is kept unless it is a repaint in the window of the last resize; what is kept
      goes to the scrollback. */
  lemma KeptUnlessRepaint(b: Beginning, actions: seq<Action>, data: Bytes, now: int, doneFirst: set<SubId>)
    requires data != []
    ensures var st := Reached(b, actions);
            var st1 := Next(st, Publish(data, now, doneFirst));
            if Suppressed(actions, data, now) then st1.chunks == st.chunks && st1.core.scrollback == st.core.scrollback
            else && st1.chunks == st.chunks + [Chunk(data, now, Redrawing(actions, now, false))]
                 && st1.core.scrollback == Tail(st.core.scrollback + data, st.core.cap)
  {
    RepaintsLookLikeIt(data);
    RedrawingMeans(b, actions, now, true);
    RedrawingMeans(b, actions, now, false);
  }

  /** All that was read, and what of it was kept. */
  function ReadBy(actions: seq<Action>): Bytes {
    if actions == [] then []
    else
      var a := actions[|actions| - 1];
      ReadBy(actions[..|actions| - 1]) + if a.Publish? then a.data else []
  }

  ghost function KeptBy(actions: seq<Action>): Bytes {
    if actions == [] then []
    else
      var n := |actions| - 1;
      var a := actions[n];
      KeptBy(actions[..n]) + if a.Publish? && !Suppressed(actions[..n], a.data, a.now) then a.data else []
  }

  lemma OthersKeepChunks(st: State, a: Action)
    requires !a.Publish? || a.data == []
    ensures Next(st, a).chunks == st.chunks && Next(st, a).output == st.output
  {
  }

  /** In every run the chunks are what was read without the repaints in a resize's window. */
  lemma {:induction false} ChunksAreWhatWasKept(b: Beginning, actions: seq<Action>)
    ensures Data(Reached(b, actions).chunks) == KeptBy(actions)
    ensures Reached(b, actions).output == ReadBy(actions)
    decreases |actions|
  {
    if actions != [] {
      var n := |actions| - 1;
      var a, st := actions[n], Reached(b, actions[..n]);
      ChunksAreWhatWasKept(b, actions[..n]);
      ReachedSnoc(b, actions);
      if a.Publish? && a.data != [] {
        KeptUnlessRepaint(b, actions[..n], a.data, a.now, a.doneFirst);
        DataSnoc(st.chunks, Chunk(a.data, a.now, Redrawing(actions[..n], a.now, false)));
      } else {
        OthersKeepChunks(st, a);
      }
    }
  }

  /** A session that is never resized keeps all its output. */
  lemma WithoutResizesAllIsKept(b: Beginning, actions: seq<Action>)
    requires forall a :: a in actions ==> !a.CommitResize?
    ensures Data(Reached(b, actions).chunks) == Reached(b, actions).output
  {
    ChunksAreWhatWasKept(b, actions);
    AllKept(actions);
  }

  lemma {:induction false} AllKept(actions: seq<Action>)
    requires forall a :: a in actions ==> !a.CommitResize?
    ensures KeptBy(actions) == ReadBy(actions)
    decreases |actions|
  {
    if actions != [] {
      AllKept(actions[..|actions| - 1]);
    }
  }

  // --- Who is sent it ---

  /** A subscriber is kept out of a chunk that is suppressed, or that comes in the window
      of the last resize less than 1500 ms after it subscribed. */
  ghost predicate KeptOut(actions: seq<Action>, data: Bytes, now: int, subscribedAt: int) {
    Suppressed(actions, data, now) || (Redrawing(actions, now, false) && now < subscribedAt + 1_500_000_000)
  }

  ghost predicate Untouched(st: State, st1: State, s: SubId)
    requires s in st.core.members
  {
    s in st1.core.members && st1.core.members[s] == st.core.members[s] && (s in st1.core.subs <==> s in st.core.subs)
  }

  ghost predicate Gets(st: State, st1: State, s: SubId, f: Frame)
    requires s in st.core.members
  {
    && s in st1.core.members && s in st1.core.subs
    && st1.core.members[s] == st.core.members[s].(queue := st.core.members[s].queue + [f])
  }

  /** Out of the map and about to be cancelled. */
  ghost predicate Loses(st: State, st1: State, s: SubId)
    requires s in st.core.members
  {
    s !in st1.core.subs && s in st1.toCancel && s in st1.core.members && st1.core.members[s] == st.core.members[s]
  }

  /** What publishing does to each subscriber: nothing to those kept out or gone; those
      with fewer than 256 frames waiting are sent the chunk; those with 256 are removed;
      and a cancelled one may be either sent it or removed. */
  lemma WhoIsSent(b: Beginning, actions: seq<Action>, data: Bytes, now: int, doneFirst: set<SubId>, s: SubId)
    requires data != [] && s in Reached(b, actions).core.members
    ensures var st := Reached(b, actions);
            var st1, m := Next(st, Publish(data, now, doneFirst)), st.core.members[s];
            && (s !in st.core.subs || KeptOut(actions, data, now, m.subscribedAt) ==> Untouched(st, st1, s))
            && (s in st.core.subs && !KeptOut(actions, data, now, m.subscribedAt) ==>
                  && (|m.queue| >= 256 ==> Loses(st, st1, s))
                  && (|m.queue| < 256 && !m.cancelled ==> Gets(st, st1, s, Out(data)))
                  && (|m.queue| < 256 && m.cancelled ==> Gets(st, st1, s, Out(data)) || Loses(st, st1, s)))
  {
    RepaintsLookLikeIt(data);
    RedrawingMeans(b, actions, now, true);
    RedrawingMeans(b, actions, now, false);
    var st := Reached(b, actions);
    var o := Output(data, FeedPaths(st, data), now, doneFirst);
    assert Next(st, Publish(data, now, doneFirst)).core == Published(st.core, o);
  }

  function FeedPaths(st: State, data: Bytes): seq<Bytes> {
    Cwd.FeedAll(st.tracker, data).1
  }

  // --- The exit frame ---

  /** What one send of the exit frame does: sent where there is room; a full and live
      subscriber is marked for removal; a cancelled one is sent it or not, and left alone
      when full. */
  lemma WhoIsSentTheExit(st: State, s: SubId, code: int, cancelWins: bool)
    requires st.exit.Fanning? && st.exit.full == None && s in st.exit.todo && st.core.exitCode == Some(code)
    requires s in st.core.members
    ensures var st1, m := Next(st, ExitSend(s, code, cancelWins)), st.core.members[s];
            && st1.exit == Fanning(st.exit.todo - {s}, if |m.queue| >= 256 && !m.cancelled then Some(s) else None)
            && st1.core.subs == st.core.subs && st1.core.members.Keys == st.core.members.Keys
            && (forall x :: x in st.core.members && x != s ==> st1.core.members[x] == st.core.members[x])
            && (st1.core.members[s] == m || st1.core.members[s] == m.(queue := m.queue + [Exit(code)]))
            && (|m.queue| < 256 && !m.cancelled ==> st1.core.members[s] == m.(queue := m.queue + [Exit(code)]))
            && (|m.queue| >= 256 ==> st1.core.members[s] == m)
  {
  }

  /** The send, the removal of one found full and its cancelling. */
  function ExitPassOver(st: State, s: SubId, code: int, cancelWins: bool): State {
    var st1 := Next(st, ExitSend(s, code, cancelWins));
    if st1.exit.Fanning? && st1.exit.full.Some? then Next(Next(st1, ExitDropFull), CancelRemoved(s)) else st1
  }

  /** With nothing in between, these are what the session's own pass does to a subscriber. */
  lemma ExitPassIsTheFanout(st: State, s: SubId, code: int, cancelWins: bool)
    requires st.exit.Fanning? && st.exit.full == None && s in st.exit.todo && st.core.exitCode == Some(code)
    requires s in st.core.members
    ensures var end, m := ExitPassOver(st, s, code, cancelWins), st.core.members[s];
            && s in end.core.members && end.core.members[s] == AfterFanout(m, Exit(code), cancelWins)
            && end.core.subs == if |m.queue| >= 256 && !m.cancelled then st.core.subs - {s} else st.core.subs
  {
    WhoIsSentTheExit(st, s, code, cancelWins);
  }

  // --- What the session remembers ---

  /** When input or output last went through. */
  function LastActivity(start: int, actions: seq<Action>): int {
    if actions == [] then start
    else
      var a := actions[|actions| - 1];
      if (a.Publish? && a.data != []) || a.InputWritten? then a.now
      else LastActivity(start, actions[..|actions| - 1])
  }

  function LastSize(start: (nat, nat), actions: seq<Action>): (nat, nat) {
    if actions == [] then start
    else
      var a := actions[|actions| - 1];
      if Resizes(a) then (a.cols, a.rows) else LastSize(start, actions[..|actions| - 1])
  }

  lemma StepRemembers(st: State, a: Action)
    ensures Next(st, a).core.lastIO == if (a.Publish? && a.data != []) || a.InputWritten? then a.now else st.core.lastIO
    ensures (Next(st, a).core.cols, Next(st, a).core.rows)
         == if Resizes(a) then (a.cols, a.rows) else (st.core.cols, st.core.rows)
    ensures Next(st, a).core.cap == st.core.cap
  {
  }

  /** The time of the last activity, the size and the scrollback's capacity, from the run's
      actions alone: neither attaching, leaving, killing nor exiting counts. */
  lemma {:induction false} ActivityAndSize(b: Beginning, actions: seq<Action>)
    ensures Reached(b, actions).core.lastIO == LastActivity(b.now, actions)
    ensures (Reached(b, actions).core.cols, Reached(b, actions).core.rows) == LastSize((b.cols, b.rows), actions)
    ensures Reached(b, actions).core.cap == if b.capacity < 1 then 1 else b.capacity
    decreases |actions|
  {
    if actions != [] {
      var n := |actions| - 1;
      ActivityAndSize(b, actions[..n]);
      ReachedSnoc(b, actions);
      StepRemembers(Reached(b, actions[..n]), actions[n]);
    }
  }

  lemma StepSubscribes(st: State, a: Action, s: SubId)
    requires s in Next(st, a).core.members
    ensures a == Subscribe(s, Next(st, a).core.members[s].subscribedAt)
            || (s in st.core.members && Next(st, a).core.members[s].subscribedAt == st.core.members[s].subscribedAt)
  {
  }

  /** Every subscriber came by a subscription at the time it is known to have come. */
  lemma {:induction false} SubscribedWhen(b: Beginning, actions: seq<Action>, s: SubId)
    requires s in Reached(b, actions).core.members
    ensures Subscribe(s, Reached(b, actions).core.members[s].subscribedAt) in actions
    decreases |actions|
  {
    if actions != [] {
      var n := |actions| - 1;
      ReachedSnoc(b, actions);
      StepSubscribes(Reached(b, actions[..n]), actions[n], s);
      if actions[n] != Subscribe(s, Reached(b, actions).core.members[s].subscribedAt) {
        SubscribedWhen(b, actions[..n], s);
      }
    }
  }
}
