/** One subscriber's troubles stay its own: leaving a subscriber out of a run leaves
    everybody else exactly where they were. */
module Independence {
  import opened Common
  import opened Cwd
  import opened Session
  import opened Delivery

  function EraseExit(exit: ExitPhase, x: SubId): ExitPhase {
    match exit
    case Fanning(todo, full) => Fanning(todo - {x}, if full == Some(x) then None else full)
    case Collected(todo) => Collected(todo - {x})
    case _ => exit
  }

  /** The session as if `x` had never been there. */
  function Erase(st: State, x: SubId): State {
    st.(core := st.core.(subs := st.core.subs - {x}, members := st.core.members - {x}),
        past := st.past - {x},
        toCancel := st.toCancel - {x},
        exit := EraseExit(st.exit, x))
  }

  /** A step that is `x`'s own: it comes, goes, is drained, cancelled or sent the exit
      frame, or is dropped for having no room for it. */
  predicate Concerns(st: State, a: Action, x: SubId) {
    match a
    case Subscribe(s, _) => s == x
    case Remove(s) => s == x
    case Dequeue(s) => s == x
    case CancelRemoved(s) => s == x
    case ContextEnds(s) => s == x
    case ExitSend(s, _, _) => s == x
    case ExitCancel(s) => s == x
    case ExitDropFull => st.exit.Fanning? && st.exit.full == Some(x)
    case _ => false
  }

  lemma CancelOwn(members: map<SubId, Member>, x: SubId)
    ensures CancelledIn(members, {x}) - {x} == members - {x}
  {
  }

  lemma CancelOther(members: map<SubId, Member>, x: SubId, y: SubId)
    requires x != y
    ensures CancelledIn(members, {y}) - {x} == CancelledIn(members - {x}, {y})
  {
  }

  lemma StopOwn(past: map<SubId, Past>, x: SubId, at: nat)
    ensures StopAll(past, {x}, at) - {x} == past - {x}
  {
  }

  lemma StopOthers(past: map<SubId, Past>, gone: set<SubId>, x: SubId, at: nat)
    ensures StopAll(past, gone, at) - {x} == StopAll(past - {x}, gone - {x}, at)
  {
  }

  // --- Steps of the subscriber itself ---

  lemma OwnRemoveErased(st: State, x: SubId)
    ensures Erase(NextRemove(st, x), x) == Erase(st, x)
  {
    StopOwn(st.past, x, |st.chunks|);
    assert st.core.subs - {x} - {x} == st.core.subs - {x};
    assert st.toCancel + {x} - {x} == st.toCancel - {x};
  }

  lemma OwnCancelErased(st: State, x: SubId)
    ensures Erase(st.(core := Cancelled(st.core, {x})), x) == Erase(st, x)
  {
    CancelOwn(st.core.members, x);
  }

  lemma OwnExitErased(st: State, a: Action, x: SubId)
    requires Enabled(st, a) && Concerns(st, a, x) && (a.ExitSend? || a.ExitCancel? || a.ExitDropFull?)
    ensures Erase(Next(st, a), x) == Erase(st, x)
  {
    match a {
      case ExitSend(_, code, cancelWins) =>
        assert st.exit.todo - {x} - {x} == st.exit.todo - {x};
      case ExitCancel(_) =>
        OwnCancelErased(st, x);
        assert st.exit.todo - {x} - {x} == st.exit.todo - {x};
      case ExitDropFull => OwnRemoveErased(st, x);
    }
  }

  lemma OwnStepErased(st: State, a: Action, x: SubId)
    requires Enabled(st, a) && Concerns(st, a, x)
    ensures Erase(Next(st, a), x) == Erase(st, x)
  {
    match a {
      case Subscribe(_, at) =>
        assert st.core.subs + {x} - {x} == st.core.subs - {x};
      case Remove(_) => OwnRemoveErased(st, x);
      case Dequeue(_) =>
      case CancelRemoved(_) =>
        OwnCancelErased(st, x);
        assert st.toCancel - {x} - {x} == st.toCancel - {x};
      case ContextEnds(_) => OwnCancelErased(st, x);
      case _ => OwnExitErased(st, a, x);
    }
  }

  // --- Steps of anybody else ---

  function CoreWithout(c: Core, x: SubId): Core {
    c.(subs := c.subs - {x}, members := c.members - {x})
  }

  lemma VerdictsErased(c: Core, o: Output, x: SubId)
    ensures LostTo(CoreWithout(c, x), o) == LostTo(c, o) - {x}
    ensures Delivered(CoreWithout(c, x), o) == Delivered(c, o) - {x}
  {
  }

  /** The subscribers' past, once everyone due the frame has it. */
  function SentPast(c: Core, past: map<SubId, Past>, o: Output): map<SubId, Past> {
    map s | s in past ::
      if s in c.members && VerdictOn(c, o, s) == Sent
      then past[s].(enqueued := past[s].enqueued + [Out(o.data)]) else past[s]
  }

  lemma SentErased(c: Core, past: map<SubId, Past>, o: Output, x: SubId)
    ensures SentPast(CoreWithout(c, x), past - {x}, o) == SentPast(c, past, o) - {x}
  {
  }

  lemma PublishIs(st: State, data: Bytes, now: int, doneFirst: set<SubId>)
    ensures var o := Output(data, FeedAll(st.tracker, data).1, now, doneFirst);
            NextPublish(st, data, now, doneFirst).past
            == StopAll(SentPast(st.core, st.past, o), LostTo(st.core, o), |st.chunks|)
  {
  }

  lemma PublishErased(st: State, data: Bytes, now: int, doneFirst: set<SubId>, x: SubId)
    ensures Erase(NextPublish(st, data, now, doneFirst), x) == NextPublish(Erase(st, x), data, now, doneFirst)
  {
    var o := Output(data, FeedAll(st.tracker, data).1, now, doneFirst);
    var c, lost := st.core, LostTo(st.core, o);
    VerdictsErased(c, o, x);
    SentErased(c, st.past, o, x);
    StopOthers(SentPast(c, st.past, o), lost, x, |st.chunks|);
    PublishIs(st, data, now, doneFirst);
    PublishIs(Erase(st, x), data, now, doneFirst);
    assert c.subs - lost - {x} == c.subs - {x} - (lost - {x});
    assert st.toCancel + lost - {x} == st.toCancel - {x} + (lost - {x});
  }

  lemma RemoveErased(st: State, x: SubId, y: SubId)
    requires x != y
    ensures Erase(NextRemove(st, y), x) == NextRemove(Erase(st, x), y)
  {
    StopOthers(st.past, {y}, x, |st.chunks|);
    assert {y} - {x} == {y};
    assert st.core.subs - {y} - {x} == st.core.subs - {x} - {y};
    assert st.toCancel + {y} - {x} == st.toCancel - {x} + {y};
  }

  lemma SubscribeErased(st: State, x: SubId, y: SubId, at: int)
    requires x != y
    ensures Erase(NextSubscribe(st, y, at), x) == NextSubscribe(Erase(st, x), y, at)
  {
    if !st.core.closed {
      var m := Member([Replay(st.core.scrollback)], false, at);
      assert st.core.members[y := m] - {x} == (st.core.members - {x})[y := m];
      var p := Past([Replay(st.core.scrollback)], [], |st.chunks|, None);
      assert st.past[y := p] - {x} == (st.past - {x})[y := p];
      assert st.core.subs + {y} - {x} == st.core.subs - {x} + {y};
    }
  }

  lemma UpdateErased<V>(m: map<SubId, V>, x: SubId, y: SubId, v: V)
    requires x != y
    ensures m[y := v] - {x} == (m - {x})[y := v]
  {
  }

  lemma DequeueErased(st: State, x: SubId, y: SubId)
    requires x != y && y in st.core.members && st.core.members[y].queue != []
    ensures Erase(NextDequeue(st, y), x) == NextDequeue(Erase(st, x), y)
  {
    var m := st.core.members[y];
    UpdateErased(st.core.members, x, y, m.(queue := m.queue[1..]));
    if y in st.past {
      UpdateErased(st.past, x, y, st.past[y].(dequeued := st.past[y].dequeued + [m.queue[0]]));
    }
  }

  lemma CancelErased(st: State, x: SubId, y: SubId)
    requires x != y
    ensures Erase(st.(core := Cancelled(st.core, {y})), x) == Erase(st, x).(core := Cancelled(Erase(st, x).core, {y}))
  {
    CancelOther(st.core.members, x, y);
  }

  lemma ExitSendErased(st: State, x: SubId, y: SubId, code: int, cancelWins: bool)
    requires x != y && st.exit.Fanning? && st.exit.full == None && y in st.core.members
    ensures Erase(NextExitSend(st, y, code, cancelWins), x) == NextExitSend(Erase(st, x), y, code, cancelWins)
  {
    var m := st.core.members[y];
    UpdateErased(st.core.members, x, y, Enqueue(m, Exit(code)));
    if y in st.past {
      UpdateErased(st.past, x, y, st.past[y].(enqueued := st.past[y].enqueued + [Exit(code)]));
    }
    assert st.exit.todo - {y} - {x} == st.exit.todo - {x} - {y};
  }

  lemma CollectErased(st: State, x: SubId)
    requires st.exit == Fanning({}, None)
    ensures Erase(NextExitCollect(st), x) == NextExitCollect(Erase(st, x))
  {
    StopOthers(st.past, st.core.subs, x, |st.chunks|);
    var none: set<SubId> := {};
    assert none - {x} == none;
  }

  lemma ExitStepErased(st: State, a: Action, x: SubId)
    requires Enabled(st, a) && !Concerns(st, a, x)
    requires a.ExitSend? || a.ExitDropFull? || a.ExitCollect? || a.ExitCancel? || a.ExitFinish?
    ensures Next(Erase(st, x), a) == Erase(Next(st, a), x)
  {
    var none: set<SubId> := {};
    assert none - {x} == none;
    match a {
      case ExitSend(s, code, cancelWins) => ExitSendErased(st, x, s, code, cancelWins);
      case ExitDropFull => RemoveErased(st, x, st.exit.full.value);
      case ExitCollect => CollectErased(st, x);
      case ExitCancel(s) =>
        CancelErased(st, x, s);
        assert st.exit.todo - {s} - {x} == st.exit.todo - {x} - {s};
      case ExitFinish =>
    }
  }

  /** What others do, they do in the same way without `x`. */
  lemma OtherStepErased(st: State, a: Action, x: SubId)
    requires Enabled(st, a) && !Concerns(st, a, x)
    ensures Next(Erase(st, x), a) == Erase(Next(st, a), x)
  {
    match a {
      case Publish(data, now, doneFirst) => PublishErased(st, data, now, doneFirst, x);
      case CancelRemoved(s) =>
        CancelErased(st, x, s);
        assert st.toCancel - {s} - {x} == st.toCancel - {x} - {s};
      case ContextEnds(s) => CancelErased(st, x, s);
      case Subscribe(s, at) => SubscribeErased(st, x, s, at);
      case Remove(s) => RemoveErased(st, x, s);
      case Dequeue(s) => DequeueErased(st, x, s);
      case Kill =>
      case CommitResize(_, _, _) =>
      case InputWritten(_) =>
      case ExitRecord(_) =>
      case ExitSnapshot =>
      case _ => ExitStepErased(st, a, x);
    }
  }

  // --- Whole runs ---

  /** The steps of a run that took effect and were not `x`'s own. */
  function WithoutIt(st: State, actions: seq<Action>, x: SubId): seq<Action>
    decreases |actions|
  {
    if actions == [] then []
    else
      var a := actions[0];
      (if Enabled(st, a) && !Concerns(st, a, x) then [a] else []) + WithoutIt(Next(st, a), actions[1..], x)
  }

  /** Whatever one subscriber does in a run, and whatever becomes of it, the exit pass
      included: the others end up as in the run of their own steps without it. */
  lemma {:induction false} OthersNeverNotice(st: State, actions: seq<Action>, x: SubId)
    ensures Erase(Run(st, actions), x) == Run(Erase(st, x), WithoutIt(st, actions, x))
    decreases |actions|
  {
    if actions != [] {
      var a, rest := actions[0], actions[1..];
      var tail := WithoutIt(Next(st, a), rest, x);
      OthersNeverNotice(Next(st, a), rest, x);
      if Enabled(st, a) {
        if Concerns(st, a, x) {
          OwnStepErased(st, a, x);
          assert [] + tail == tail;
        } else {
          OtherStepErased(st, a, x);
          assert ([a] + tail)[1..] == tail;
        }
      } else {
        assert [] + tail == tail;
      }
    }
  }

  /** So two runs in which the others take the same steps, from states that differ only
      in `x`, differ only in `x`: everybody else has the same queue, has been sent and
      has taken the same frames, and is attached, cancelled or to be cancelled alike. */
  lemma OthersUnaffected(st: State, other: State, actions: seq<Action>, others: seq<Action>, x: SubId, y: SubId)
    requires Erase(st, x) == Erase(other, x) && WithoutIt(st, actions, x) == WithoutIt(other, others, x) && y != x
    ensures var a, b := Run(st, actions), Run(other, others);
            && (y in a.core.members <==> y in b.core.members)
            && (y in a.core.members ==> a.core.members[y] == b.core.members[y])
            && (y in a.past <==> y in b.past)
            && (y in a.past ==> a.past[y] == b.past[y])
            && (y in a.core.subs <==> y in b.core.subs)
            && (y in a.toCancel <==> y in b.toCancel)
            && a.chunks == b.chunks && a.core.scrollback == b.core.scrollback && a.core.cwd == b.core.cwd
  {
    OthersNeverNotice(st, actions, x);
    OthersNeverNotice(other, others, x);
    SameOff(Run(st, actions), Run(other, others), x, y);
  }

  lemma SameOff(a: State, b: State, x: SubId, y: SubId)
    requires Erase(a, x) == Erase(b, x) && y != x
    ensures y in a.core.members <==> y in b.core.members
    ensures y in a.core.members ==> a.core.members[y] == b.core.members[y]
    ensures y in a.past <==> y in b.past
    ensures y in a.past ==> a.past[y] == b.past[y]
    ensures y in a.core.subs <==> y in b.core.subs
    ensures y in a.toCancel <==> y in b.toCancel
    ensures a.chunks == b.chunks && a.core.scrollback == b.core.scrollback && a.core.cwd == b.core.cwd
  {
    var c, d := Erase(a, x), Erase(b, x);
    assert y in a.core.members <==> y in c.core.members;
    assert y in b.core.members <==> y in d.core.members;
    assert y in a.past <==> y in c.past;
    assert y in b.past <==> y in d.past;
    assert y in a.core.subs <==> y in c.core.subs;
    assert y in a.toCancel <==> y in c.toCancel;
  }
}
