/** Resizing a session, cut where the lock is released around the PTY's own resize:
    when the recorded size is sure to be the PTY's in the end. */
module Resizes {
  datatype Size = Size(cols: nat, rows: nat)

  /** A call that has found its size to be new, or that has already resized the PTY. */
  datatype Resizing = Wanting(size: Size) | Applied(size: Size)

  datatype State = State(recorded: Size, pty: Size, calls: map<nat, Resizing>)

  datatype Action = Begin(t: nat, size: Size) | Apply(t: nat, ok: bool) | Commit(t: nat)

  function Next(st: State, a: Action): State {
    match a
    case Begin(t, size) =>
      if t in st.calls || size == st.recorded then st else st.(calls := st.calls[t := Wanting(size)])
    case Apply(t, ok) =>
      if t !in st.calls || !st.calls[t].Wanting? then st
      else if !ok then st.(calls := st.calls - {t})
      else State(st.recorded, st.calls[t].size, st.calls[t := Applied(st.calls[t].size)])
    case Commit(t) =>
      if t !in st.calls || !st.calls[t].Applied? then st
      else State(st.calls[t].size, st.pty, st.calls - {t})
  }

  function Run(st: State, actions: seq<Action>): State
    decreases |actions|
  {
    if actions == [] then st else Run(Next(st, actions[0]), actions[1..])
  }

  predicate NoneApplied(calls: map<nat, Resizing>) {
    forall t :: t in calls ==> calls[t].Wanting?
  }

  /** All calls in flight carry one size. */
  predicate OneSize(calls: map<nat, Resizing>) {
    forall t, u :: t in calls && u in calls ==> calls[t].size == calls[u].size
  }

  /** Nothing to be noted but the PTY's own size, and nothing missed. */
  ghost predicate Agreed(st: State) {
    && (forall t :: t in st.calls && st.calls[t].Applied? ==> st.calls[t].size == st.pty)
    && (NoneApplied(st.calls) ==> st.recorded == st.pty)
  }

  // --- One size keeps agreement ---

  lemma StepAgreed(st: State, a: Action)
    requires Agreed(st) && (OneSize(st.calls) || a.Begin?)
    ensures Agreed(Next(st, a)) && (!a.Begin? ==> OneSize(Next(st, a).calls))
  {
    var next := Next(st, a);
    match a {
      case Begin(t, size) =>
        if t !in st.calls && NoneApplied(next.calls) {
          assert forall u :: u in st.calls ==> next.calls[u] == st.calls[u];
          assert NoneApplied(st.calls);
        }
      case Apply(t, ok) =>
        if t in st.calls && st.calls[t].Wanting? {
          if ok {
            assert next.calls[t] == Applied(st.calls[t].size);
          } else if NoneApplied(next.calls) {
            assert forall u :: u in st.calls && u != t ==> u in next.calls && next.calls[u] == st.calls[u];
            assert NoneApplied(st.calls);
          }
        }
      case Commit(t) =>
    }
  }

  /** Every call that begins finds only calls of its own size in flight, or none. */
  predicate Joining(st: State, actions: seq<Action>)
    decreases |actions|
  {
    actions == [] ||
    ((actions[0].Begin? ==> OneSize(Next(st, actions[0]).calls)) && Joining(Next(st, actions[0]), actions[1..]))
  }

  /** In such runs the recorded size is the PTY's whenever nobody is in between. */
  lemma {:induction false} OneSizeRunsAgree(st: State, actions: seq<Action>)
    requires Agreed(st) && OneSize(st.calls) && Joining(st, actions)
    ensures Agreed(Run(st, actions)) && OneSize(Run(st, actions).calls)
    ensures Run(st, actions).calls == map[] ==> Run(st, actions).recorded == Run(st, actions).pty
    decreases |actions|
  {
    if actions != [] {
      StepAgreed(st, actions[0]);
      OneSizeRunsAgree(Next(st, actions[0]), actions[1..]);
    } else if st.calls == map[] {
      assert NoneApplied(st.calls);
    }
  }

  // --- And nothing less does ---

  /** The calls in flight finish, in some order and with some luck; no other begins. */
  predicate Completes(st: State, actions: seq<Action>) {
    (forall a :: a in actions ==> !a.Begin?) && Run(st, actions).calls == map[]
  }

  ghost predicate AlwaysAgrees(st: State) {
    forall actions :: Completes(st, actions) ==> Run(st, actions).recorded == Run(st, actions).pty
  }

  lemma {:induction false} CompletionJoins(st: State, actions: seq<Action>)
    requires forall a :: a in actions ==> !a.Begin?
    ensures Joining(st, actions)
    decreases |actions|
  {
    if actions != [] {
      assert actions[0] in actions;
      CompletionJoins(Next(st, actions[0]), actions[1..]);
    }
  }

  lemma {:induction false} RunConcat(st: State, a: seq<Action>, b: seq<Action>)
    ensures Run(st, a + b) == Run(Run(st, a), b)
    decreases |a|
  {
    if a == [] {
      assert a + b == b;
    } else {
      assert (a + b)[1..] == a[1..] + b;
      RunConcat(Next(st, a[0]), a[1..], b);
    }
  }

  lemma RunTwo(st: State, a: Action, b: Action)
    ensures Run(st, [a, b]) == Next(Next(st, a), b)
  {
    assert [a, b][1..] == [b] && [b][1..] == [];
    assert Run(Next(st, a), [b]) == Next(Next(st, a), b);
  }

  /** The two steps that end one call, failing at the PTY if it has not been there. */
  function Ending(t: nat): seq<Action> {
    [Apply(t, false), Commit(t)]
  }

  lemma EndOne(st: State, t: nat)
    ensures Run(st, Ending(t)).calls == st.calls - {t} && Run(st, Ending(t)).pty == st.pty
  {
    RunTwo(st, Apply(t, false), Commit(t));
  }

  lemma {:induction false} EndAll(st: State, others: set<nat>) returns (actions: seq<Action>)
    ensures forall a :: a in actions ==> !a.Begin?
    ensures Run(st, actions).calls == st.calls - others && Run(st, actions).pty == st.pty
    decreases |others|
  {
    if others == {} {
      actions := [];
    } else {
      var t :| t in others;
      EndOne(st, t);
      var mid := Run(st, Ending(t));
      var rest := EndAll(mid, others - {t});
      RunConcat(st, Ending(t), rest);
      actions := Ending(t) + rest;
      assert st.calls - {t} - (others - {t}) == st.calls - others;
    }
  }

  /** Of two calls with different sizes the one at the PTY first is noted last. */
  lemma Crossing(st: State, t: nat, u: nat)
    requires t != u && st.calls.Keys == {t, u} && st.calls[t].size != st.calls[u].size && st.calls[u].Wanting?
    ensures var end := Run(st, [Apply(t, true), Apply(u, true)] + [Commit(u), Commit(t)]);
            && end.calls == map[] && end.recorded == st.calls[t].size && end.pty == st.calls[u].size
  {
    var a := [Apply(t, true), Apply(u, true)];
    RunConcat(st, a, [Commit(u), Commit(t)]);
    RunTwo(st, Apply(t, true), Apply(u, true));
    var mid := Run(st, a);
    assert mid.calls == map[t := Applied(st.calls[t].size), u := Applied(st.calls[u].size)];
    RunTwo(mid, Commit(u), Commit(t));
    assert Run(mid, [Commit(u), Commit(t)]).calls == map[];
  }

  lemma DifferentSizesDisagree(st: State, t: nat, u: nat)
    requires Agreed(st) && t in st.calls && u in st.calls && st.calls[t].size != st.calls[u].size
    requires st.calls[u].Wanting?
    ensures !AlwaysAgrees(st)
  {
    var first := EndAll(st, st.calls.Keys - {t, u});
    var mid := Run(st, first);
    assert mid.calls.Keys == {t, u};
    var last := [Apply(t, true), Apply(u, true)] + [Commit(u), Commit(t)];
    Crossing(mid, t, u);
    RunConcat(st, first, last);
    assert Completes(st, first + last);
  }

  /** However the calls in flight end, the recorded size will be the PTY's: exactly when
      they all carry one size. A caller can tell before joining them. */
  lemma AgreesIffOneSize(st: State)
    requires Agreed(st)
    ensures AlwaysAgrees(st) <==> OneSize(st.calls)
  {
    if OneSize(st.calls) {
      forall actions | Completes(st, actions)
        ensures Run(st, actions).recorded == Run(st, actions).pty
      {
        CompletionJoins(st, actions);
        OneSizeRunsAgree(st, actions);
      }
    } else {
      var t, u :| t in st.calls && u in st.calls && st.calls[t].size != st.calls[u].size;
      if st.calls[u].Wanting? {
        DifferentSizesDisagree(st, t, u);
      } else {
        DifferentSizesDisagree(st, u, t);
      }
    }
  }

  /** So a new call is safe exactly when it asks for what the others ask for. */
  lemma BeginIsSafeIff(st: State, t: nat, size: Size)
    requires Agreed(st) && OneSize(st.calls) && t !in st.calls && size != st.recorded
    ensures AlwaysAgrees(Next(st, Begin(t, size))) <==> forall u :: u in st.calls ==> st.calls[u].size == size
  {
    var next := Next(st, Begin(t, size));
    StepAgreed(st, Begin(t, size));
    AgreesIffOneSize(next);
    assert next.calls[t].size == size;
    assert forall u :: u in st.calls ==> u in next.calls && next.calls[u] == st.calls[u];
  }

  /** Once they disagree, asking for the remembered size changes nothing. */
  lemma OverlappingResizesDisagree(a: Size, b: Size, start: Size)
    requires a != b && a != start && b != start
    ensures exists actions ::
              var st := Run(State(start, start, map[]), actions);
              && st.calls == map[] && st.recorded == a && st.pty == b
              && forall t :: Next(st, Begin(t, a)) == st
  {
    var begun := [Begin(0, a), Begin(1, b)];
    var s0 := State(start, start, map[]);
    RunTwo(s0, Begin(0, a), Begin(1, b));
    var s2 := Run(s0, begun);
    var rest := [Apply(0, true), Apply(1, true)] + [Commit(1), Commit(0)];
    Crossing(s2, 0, 1);
    RunConcat(s0, begun, rest);
    assert Run(s0, begun + rest) == State(a, b, map[]);
  }
}
