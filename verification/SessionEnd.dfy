/** How a session ends: from any state its exit path can be brought to its end, and who is
    cancelled, and why. */
module SessionEnd {
  import opened Common
  import opened Session
  import opened Delivery
  import opened DeliveryLaws
  import opened SessionHistory

  // --- The exit path can always be finished ---

  /** What the exit path and the pending cancellations still refer to is there. */
  ghost predicate Ready(st: State) {
    && (st.exit != Running ==> st.core.exitCode.Some?)
    && (st.exit.Fanning? ==> st.exit.todo <= st.core.members.Keys)
    && (st.exit.Fanning? && st.exit.full.Some? ==> st.exit.full.value in st.core.members)
    && (st.exit.Collected? ==> st.exit.todo <= st.core.members.Keys)
    && st.toCancel <= st.core.members.Keys
  }

  lemma PublishKeepsReady(st: State, a: Action)
    requires Ready(st) && a.Publish?
    ensures Ready(Next(st, a))
  {
  }

  lemma ExitKeepsReady(st: State, a: Action)
    requires Ready(st) && st.core.subs <= st.core.members.Keys
    requires a.ExitSnapshot? || a.ExitSend? || a.ExitDropFull? || a.ExitCollect? || a.ExitCancel? || a.ExitFinish?
    ensures Ready(Next(st, a))
  {
  }

  lemma OthersKeepReady(st: State, a: Action)
    requires Ready(st) && !a.Publish?
    requires !(a.ExitSnapshot? || a.ExitSend? || a.ExitDropFull? || a.ExitCollect? || a.ExitCancel? || a.ExitFinish?)
    ensures Ready(Next(st, a))
  {
  }

  lemma StepKeepsReady(st: State, a: Action)
    requires Ready(st) && Framed(st)
    ensures Ready(Next(st, a))
  {
    if a.Publish? {
      PublishKeepsReady(st, a);
    } else if a.ExitSnapshot? || a.ExitSend? || a.ExitDropFull? || a.ExitCollect? || a.ExitCancel? || a.ExitFinish? {
      ExitKeepsReady(st, a);
    } else {
      OthersKeepReady(st, a);
    }
  }

  lemma {:induction false} RunKeepsReady(st: State, actions: seq<Action>)
    requires Inv(st) && Ready(st)
    ensures Ready(Run(st, actions))
    decreases |actions|
  {
    if actions != [] {
      StepKeepsReady(st, actions[0]);
      StepKeepsInv(st, actions[0]);
      RunKeepsReady(Next(st, actions[0]), actions[1..]);
    }
  }

  /** The steps of the exit path, and the cancellations still owed by whoever removed a
      subscriber. */
  predicate Winding(a: Action) {
    a.ExitRecord? || a.ExitSnapshot? || a.ExitSend? || a.ExitDropFull? || a.ExitCollect? || a.ExitCancel?
    || a.ExitFinish? || a.CancelRemoved?
  }

  ghost predicate Ends(st: State, actions: seq<Action>) {
    && (forall a :: a in actions ==> Winding(a))
    && Run(st, actions).exit == Finished && Run(st, actions).toCancel == {}
  }

  ghost predicate CanEnd(st: State) {
    exists actions :: Ends(st, actions)
  }

  lemma OneStepFromEnd(st: State, a: Action)
    requires Winding(a) && CanEnd(Next(st, a))
    ensures CanEnd(st)
  {
    var rest :| Ends(Next(st, a), rest);
    assert ([a] + rest)[1..] == rest;
    assert Ends(st, [a] + rest);
  }

  lemma {:induction false} FinishedEnds(st: State)
    requires st.exit == Finished
    ensures CanEnd(st)
    decreases |st.toCancel|
  {
    if st.toCancel == {} {
      assert Ends(st, []);
    } else {
      var s :| s in st.toCancel;
      FinishedEnds(Next(st, CancelRemoved(s)));
      OneStepFromEnd(st, CancelRemoved(s));
    }
  }

  lemma {:induction false} CollectedEnds(st: State)
    requires st.exit.Collected?
    ensures CanEnd(st)
    decreases |st.exit.todo|
  {
    if st.exit.todo == {} {
      FinishedEnds(Next(st, ExitFinish));
      OneStepFromEnd(st, ExitFinish);
    } else {
      var s :| s in st.exit.todo;
      CollectedEnds(Next(st, ExitCancel(s)));
      OneStepFromEnd(st, ExitCancel(s));
    }
  }

  lemma SendMovesOn(st: State, s: SubId)
    requires st.exit.Fanning? && st.exit.full == None && s in st.exit.todo && s in st.core.members
    requires st.core.exitCode.Some?
    ensures var st1 := Next(st, ExitSend(s, st.core.exitCode.value, false));
            && st1.exit.Fanning? && st1.exit.todo == st.exit.todo - {s}
            && st1.core.members.Keys == st.core.members.Keys && st1.core.exitCode == st.core.exitCode
  {
  }

  lemma DropMovesOn(st: State)
    requires st.exit.Fanning? && st.exit.full.Some?
    ensures var st1 := Next(st, ExitDropFull);
            && st1.exit == Fanning(st.exit.todo, None)
            && st1.core.members == st.core.members && st1.core.exitCode == st.core.exitCode
  {
  }

  lemma {:induction false} FanningEnds(st: State)
    requires st.exit.Fanning? && st.exit.todo <= st.core.members.Keys && st.core.exitCode.Some?
    ensures CanEnd(st)
    decreases |st.exit.todo|, if st.exit.full.Some? then 1 else 0
  {
    if st.exit.full.Some? {
      DropMovesOn(st);
      FanningEnds(Next(st, ExitDropFull));
      OneStepFromEnd(st, ExitDropFull);
    } else if st.exit.todo != {} {
      var s :| s in st.exit.todo;
      var send := ExitSend(s, st.core.exitCode.value, false);
      SendMovesOn(st, s);
      FanningEnds(Next(st, send));
      OneStepFromEnd(st, send);
    } else {
      CollectedEnds(Next(st, ExitCollect));
      OneStepFromEnd(st, ExitCollect);
    }
  }

  lemma RecordedEnds(st: State)
    requires st.exit == Recorded && st.core.exitCode.Some? && st.core.subs <= st.core.members.Keys
    ensures CanEnd(st)
  {
    FanningEnds(Next(st, ExitSnapshot));
    OneStepFromEnd(st, ExitSnapshot);
  }

  /** From every reachable state the exit path can be brought to its end by its own steps
      and the cancellations still owed, whatever its subscribers do or fail to do. */
  lemma ExitCanAlwaysFinish(b: Beginning, actions: seq<Action>)
    ensures CanEnd(Reached(b, actions))
  {
    var st := Reached(b, actions);
    ReachedInv(b, actions);
    InitialInv(b.capacity, b.cols, b.rows, b.now);
    RunKeepsReady(Begun(b), actions);
    match st.exit {
      case Running =>
        RecordedEnds(Next(st, ExitRecord(0)));
        OneStepFromEnd(st, ExitRecord(0));
      case Recorded => RecordedEnds(st);
      case Fanning(_, _) => FanningEnds(st);
      case Collected(_) => CollectedEnds(st);
      case Finished => FinishedEnds(st);
    }
  }

  // --- Leaving and being cancelled ---

  ghost predicate Live(st: State, s: SubId) {
    s in st.core.members && !st.core.members[s].cancelled
  }

  /** Nobody is cancelled but for the end of its own connection, after having been removed,
      or by the exit path after the map was taken away. */
  lemma OnlyTheGoneAreCancelled(st: State, a: Action, s: SubId)
    requires Live(st, s) && !Live(Next(st, a), s)
    ensures a == ContextEnds(s) || s in st.toCancel || (st.exit.Collected? && s in st.exit.todo)
  {
  }

  /** Whoever leaves is out of the map and cancelled; whoever's connection ends is cancelled. */
  lemma LeavingIsPossible(st: State, s: SubId)
    requires s in st.core.members
    ensures var left := Next(Next(st, Remove(s)), CancelRemoved(s));
            && s !in left.core.subs && s in left.core.members && left.core.members[s].cancelled && s !in left.toCancel
            && left.core.members[s].queue == st.core.members[s].queue
    ensures var ended := Next(st, ContextEnds(s));
            s in ended.core.members && ended.core.members[s].cancelled && ended.core.subs == st.core.subs
  {
  }

  /** Only those ever registered are removed or cancelled. */
  lemma OnlyMembersAreCancelled(b: Beginning, actions: seq<Action>)
    ensures Reached(b, actions).toCancel <= Reached(b, actions).core.members.Keys
  {
    InitialInv(b.capacity, b.cols, b.rows, b.now);
    RunKeepsReady(Begun(b), actions);
  }
}
