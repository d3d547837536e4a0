/** One shell session of the relay: its scrollback, its subscribers and their
    bounded queues. `Core` is the state the session mutex guards; each function
    on it is one critical section. The class carries them out on real fields. */
module Session {
  import opened Common
  import opened Cwd
  import opened Scrollback

  const QUEUE_SLOTS := 256
  const REPAINT_WINDOW := 750_000_000  // nanoseconds
  const MAX_COLS := 500
  const MAX_ROWS := 200

  datatype Frame =
    | Replay(data: Bytes)
    | Out(data: Bytes)
    | Exit(code: int)
    | Pong
    | Error(message: Bytes)

  // The identity of one subscriber object.
  type SubId = nat

  datatype Member = Member(queue: seq<Frame>, cancelled: bool, subscribedAt: int)

  datatype Core = Core(
    cap: nat,
    scrollback: Bytes,
    subs: set<SubId>,
    subsNil: bool,                  // the exit path sets the map to nil
    members: map<SubId, Member>,    // every subscriber object ever registered
    lastIO: int,
    closed: bool,
    exitCode: Option<int>,
    cwd: PathText,
    repaintUntil: Option<int>,
    cols: nat,
    rows: nat)

  // --- Resize repaints ---

  const HIDE_CURSOR: Bytes := [ESC, 0x5b, 0x3f, 0x32, 0x35, 0x6c]
  const SHOW_CURSOR: Bytes := [ESC, 0x5b, 0x3f, 0x32, 0x35, 0x68]
  const CURSOR_HOME: Bytes := [ESC, 0x5b, 0x48]
  const ERASE_LINE: Bytes := [ESC, 0x5b, 0x4b]

  predicate Contains(data: Bytes, pattern: Bytes) {
    exists i :: 0 <= i <= |data| && OccursAt(data, pattern, i)
  }

  // No two occurrences of the erase pattern overlap, so counting at least two of
  // them is finding two.
  predicate ContainsTwice(data: Bytes, pattern: Bytes) {
    exists i, j :: 0 <= i < j <= |data| && OccursAt(data, pattern, i) && OccursAt(data, pattern, j)
  }

  predicate LooksLikeRepaint(data: Bytes) {
    && data != []
    && Contains(data, HIDE_CURSOR)
    && Contains(data, CURSOR_HOME)
    && Contains(data, SHOW_CURSOR)
    && ContainsTwice(data, ERASE_LINE)
  }

  /** The repaint window as a chunk read at `now` leaves it. */
  function WindowAt(until: Option<int>, now: int): Option<int> {
    if until.Some? && now > until.value then None else until
  }

  /** Whether a chunk is thrown away for everyone. */
  predicate Dropped(until: Option<int>, data: Bytes, now: int) {
    until.Some? && now <= until.value && LooksLikeRepaint(data)
  }

  /** Whether a chunk that is kept falls inside the window. */
  predicate InWindow(until: Option<int>, now: int) {
    until.Some? && now < until.value
  }

  /** Whether a kept chunk is withheld from a subscriber that is still new. */
  predicate Withheld(subscribedAt: int, inWindow: bool, now: int) {
    inWindow && now < subscribedAt + 2 * REPAINT_WINDOW
  }

  // --- Sends that never block ---

  datatype Verdict = Passed | Sent | Lost

  /** Whether the send branch of a select is taken. When the subscriber is both
      able to receive and already cancelled, either branch may be chosen. */
  predicate Accepts(m: Member, doneFirst: bool) {
    |m.queue| < QUEUE_SLOTS && !(m.cancelled && doneFirst)
  }

  function Judge(m: Member, inWindow: bool, now: int, doneFirst: bool): Verdict {
    if Withheld(m.subscribedAt, inWindow, now) then Passed
    else if Accepts(m, doneFirst) then Sent
    else Lost
  }

  function Enqueue(m: Member, frame: Frame): Member {
    m.(queue := m.queue + [frame])
  }

  // --- Critical sections ---

  datatype Output = Output(data: Bytes, paths: seq<PathText>, now: int, doneFirst: set<SubId>)

  /** What the select does for one registered subscriber when `o` is published. */
  function VerdictOn(c: Core, o: Output, s: SubId): Verdict
    requires s in c.members
  {
    if s !in c.subs || Dropped(c.repaintUntil, o.data, o.now) then Passed
    else Judge(c.members[s], InWindow(WindowAt(c.repaintUntil, o.now), o.now), o.now, s in o.doneFirst)
  }

  function LostTo(c: Core, o: Output): set<SubId> {
    set s | s in c.members && VerdictOn(c, o, s) == Lost
  }

  /** The subscribers' records once everyone due the frame has it. */
  function Delivered(c: Core, o: Output): map<SubId, Member> {
    map s | s in c.members ::
      if VerdictOn(c, o, s) == Sent then Enqueue(c.members[s], Out(o.data)) else c.members[s]
  }

  function Published(c: Core, o: Output): Core {
    c.(scrollback := if Dropped(c.repaintUntil, o.data, o.now) then c.scrollback
                     else Tail(c.scrollback + o.data, c.cap),
       subs := c.subs - LostTo(c, o),
       members := Delivered(c, o),
       lastIO := o.now,
       cwd := if o.paths == [] then c.cwd else LastPath(o.paths),
       repaintUntil := WindowAt(c.repaintUntil, o.now))
  }

  function CancelledIn(members: map<SubId, Member>, gone: set<SubId>): map<SubId, Member> {
    map s | s in members :: if s in gone then members[s].(cancelled := true) else members[s]
  }

  function Cancelled(c: Core, gone: set<SubId>): Core {
    c.(members := CancelledIn(c.members, gone))
  }

  function Subscribed(c: Core, s: SubId, at: int): Core {
    if c.closed then c
    else c.(subs := c.subs + {s},
            members := c.members[s := Member([Replay(c.scrollback)], false, at)])
  }

  function Unregistered(c: Core, gone: set<SubId>): Core {
    c.(subs := c.subs - gone)
  }

  /** One send of the exit frame, outside the mutex. */
  function Offered(c: Core, s: SubId, frame: Frame, doneFirst: bool): Core
    requires s in c.members
  {
    if Accepts(c.members[s], doneFirst) then c.(members := c.members[s := Enqueue(c.members[s], frame)]) else c
  }

  /** Whether that send found the queue of a live subscriber full. */
  predicate Overflows(m: Member) {
    |m.queue| >= QUEUE_SLOTS && !m.cancelled
  }

  /** One subscriber of the snapshot, once the exit fan-out is through with it. */
  function AfterFanout(m: Member, frame: Frame, doneFirst: bool): Member {
    if Accepts(m, doneFirst) then Enqueue(m, frame)
    else m.(cancelled := true)
  }

  datatype InputResult = InputTaken | InputRefused | InputFailed

  datatype ResizeResult = Resized | InvalidDimensions | SessionClosed | PtyError

  predicate ValidSize(cols: int, rows: int) {
    1 <= cols <= MAX_COLS && 1 <= rows <= MAX_ROWS
  }

  function SizeRecorded(c: Core, cols: nat, rows: nat, now: int): Core {
    c.(cols := cols, rows := rows, repaintUntil := Some(now + REPAINT_WINDOW))
  }

  class Session {
    const id: nat
    const idleTimeout: int
    const scrollback: RingBuffer
    const tracker: CwdTracker
    var subs: set<SubId>
    var subsNil: bool
    var members: map<SubId, Member>
    var lastIO: int
    var closed: bool
    var exitCode: Option<int>
    var cwd: PathText
    var repaintUntil: Option<int>
    var cols: nat
    var rows: nat
    ghost var ptyCloses: nat        // calls of the PTY's Close

    ghost predicate Valid()
      reads this, scrollback, scrollback.buf
    {
      && scrollback.Valid()
      && subs <= members.Keys
      && (subsNil ==> closed && subs == {})
    }

    ghost function Kept(): Bytes
      reads scrollback
    {
      Tail(scrollback.written, scrollback.buf.Length)
    }

    ghost function Value(): Core
      reads this, scrollback
    {
      Core(scrollback.buf.Length, Kept(), subs, subsNil, members,
           lastIO, closed, exitCode, cwd, repaintUntil, cols, rows)
    }

    constructor (id: nat, idleTimeout: int, capacity: int, cols: nat, rows: nat, now: int)
      ensures Valid() && fresh(scrollback) && fresh(scrollback.buf) && fresh(tracker)
      ensures Value() == Core(if capacity < 1 then 1 else capacity, [], {}, false, map[],
                              now, false, None, [], None, cols, rows)
      ensures tracker.Value() == NEW_TRACKER
      ensures this.id == id && this.idleTimeout == idleTimeout && ptyCloses == 0
    {
      this.id, this.idleTimeout, ptyCloses := id, idleTimeout, 0;
      scrollback := new RingBuffer(capacity);
      tracker := new CwdTracker();
      subs, subsNil, members := {}, false, map[];
      lastIO, closed, exitCode, cwd, repaintUntil := now, false, None, [], None;
      this.cols, this.rows := cols, rows;
    }

    method SuppressResizeRepaint(data: Bytes, now: int) returns (drop: bool)
      modifies this`repaintUntil
      ensures drop == Dropped(old(repaintUntil), data, now)
      ensures repaintUntil == WindowAt(old(repaintUntil), now)
    {
      if repaintUntil.None? {
        return false;
      }
      if now > repaintUntil.value {
        repaintUntil := None;
        return false;
      }
      drop := LooksLikeRepaint(data);
    }

    method SetPaths(paths: seq<PathText>)
      modifies this`cwd
      ensures cwd == if paths == [] then old(cwd) else LastPath(paths)
    {
      for i := 0 to |paths|
        invariant cwd == if i == 0 then old(cwd) else paths[i - 1]
      {
        cwd := paths[i];
      }
    }

    method Keep(data: Bytes)
      requires Valid()
      modifies scrollback, scrollback.buf
      ensures Valid() && Kept() == Tail(old(Kept()) + data, scrollback.buf.Length)
    {
      TailOfTail(scrollback.written, data, scrollback.buf.Length);
      var _ := scrollback.Write(data);
    }

    method Record(o: Output) returns (drop: bool)
      requires Valid()
      modifies this`repaintUntil, this`lastIO, this`cwd, scrollback, scrollback.buf
      ensures Valid()
      ensures drop == Dropped(old(repaintUntil), o.data, o.now)
      ensures Kept() == if drop then old(Kept()) else Tail(old(Kept()) + o.data, scrollback.buf.Length)
      ensures lastIO == o.now && repaintUntil == WindowAt(old(repaintUntil), o.now)
      ensures cwd == if o.paths == [] then old(cwd) else LastPath(o.paths)
    {
      drop := SuppressResizeRepaint(o.data, o.now);
      if !drop {
        Keep(o.data);
      }
      lastIO := o.now;
      SetPaths(o.paths);
    }

    /** Records one read in the scrollback and hands it to every subscriber. */
    method PublishOutput(o: Output)
      requires Valid()
      modifies this, scrollback, scrollback.buf
      ensures Valid()
      ensures Value() == Cancelled(Published(old(Value()), o), LostTo(old(Value()), o))
    {
      ghost var c := Value();
      var cancelSubs: set<SubId> := {};
      var drop := Record(o);
      if !drop {
        cancelSubs := Deliver(o, c);
      } else {
        DroppedTouchesNobody(c, o);
        assert c.subs - {} == c.subs;
      }
      assert subs == c.subs - LostTo(c, o) && members == Delivered(c, o);
      assert Value() == Published(c, o);
      Cancel(cancelSubs);
    }

    /** The loop over the subscribers. */
    method Deliver(o: Output, ghost c: Core) returns (cancelSubs: set<SubId>)
      requires subs <= members.Keys
      requires subs == c.subs && members == c.members && repaintUntil == WindowAt(c.repaintUntil, o.now)
      requires !Dropped(c.repaintUntil, o.data, o.now)
      modifies this`subs, this`members
      ensures cancelSubs == LostTo(c, o)
      ensures subs == c.subs - LostTo(c, o)
      ensures members == Delivered(c, o)
    {
      var frame := Out(o.data);
      var inWindow := InWindow(repaintUntil, o.now);
      var todo := subs;
      cancelSubs := {};
      while todo != {}
        invariant todo <= c.subs
        invariant forall s :: s in cancelSubs <==> s in c.subs - todo && VerdictOn(c, o, s) == Lost
        invariant subs == c.subs - cancelSubs
        invariant members.Keys == c.members.Keys
        invariant forall s :: s in c.members ==>
                    members[s] == if s in c.subs - todo && VerdictOn(c, o, s) == Sent
                                  then Enqueue(c.members[s], frame) else c.members[s]
        decreases todo
      {
        var s :| s in todo;
        todo := todo - {s};
        var m := members[s];
        if Withheld(m.subscribedAt, inWindow, o.now) {
          continue;
        }
        if Accepts(m, s in o.doneFirst) {
          members := members[s := Enqueue(m, frame)];
        } else {
          subs := subs - {s};
          cancelSubs := cancelSubs + {s};
        }
      }
    }

    method Cancel(gone: set<SubId>)
      modifies this`members
      ensures members == CancelledIn(old(members), gone)
    {
      members := map s | s in members :: if s in gone then members[s].(cancelled := true) else members[s];
    }

    /** One read of the pump: the tracker sees every byte, kept or not. */
    method PumpRead(data: Bytes, now: int, doneFirst: set<SubId>)
      requires Valid()
      modifies this, scrollback, scrollback.buf, tracker
      ensures Valid()
      ensures var (t, paths) := FeedAll(old(tracker.Value()), data);
              var o := Output(data, paths, now, doneFirst);
              && tracker.Value() == t
              && Value() == Cancelled(Published(old(Value()), o), LostTo(old(Value()), o))
    {
      var paths := tracker.Feed(data);
      PublishOutput(Output(data, paths, now, doneFirst));
    }

    /** Snapshot, registration and the replay frame, as one. */
    method Subscribe(s: SubId, at: int)
      requires Valid() && s !in members
      modifies this
      ensures Valid()
      ensures Value() == Subscribed(old(Value()), s, at)
    {
      if closed {
        return;
      }
      var snapshot := scrollback.Snapshot();
      subs := subs + {s};
      members := members[s := Member([Replay(snapshot[..])], false, at)];
    }

    method RemoveSubscriber(s: SubId)
      modifies this`subs, this`members
      ensures subs == old(subs) - {s}
      ensures members == CancelledIn(old(members), {s})
    {
      if s in subs {
        subs := subs - {s};
      }
      Cancel({s});
    }

    /** The select of the fan-out, for one subscriber of the snapshot. */
    method SendOrDrop(s: SubId, frame: Frame, doneFirst: bool)
      requires s in members
      modifies this`subs, this`members
      ensures members == old(members)[s := AfterFanout(old(members)[s], frame, doneFirst)]
      ensures subs == if Overflows(old(members)[s]) then old(subs) - {s} else old(subs)
    {
      var m := members[s];
      if Accepts(m, doneFirst) {
        members := members[s := Enqueue(m, frame)];
      } else if !m.cancelled {
        CancelOne(members, s);
        RemoveSubscriber(s);
      } else {
        assert m.(cancelled := true) == m;
        assert members[s := m] == members;
      }
    }

    /** Sends `frame` to the subscribers of a snapshot, dropping those that overflow. */
    method Fanout(frame: Frame, doneFirst: set<SubId>)
      requires Valid()
      modifies this`subs, this`members
      ensures Valid()
      ensures subs == set s | s in old(subs) && !Overflows(old(members[s]))
      ensures members == map s | s in old(members) ::
                if s in old(subs) then AfterFanout(old(members[s]), frame, s in doneFirst) else old(members[s])
    {
      ghost var was, all := members, subs;
      var todo := subs;
      while todo != {}
        invariant todo <= all <= was.Keys == members.Keys
        invariant forall s :: s in was ==>
                    members[s] == if s in all - todo then AfterFanout(was[s], frame, s in doneFirst) else was[s]
        invariant forall s :: s in subs <==> s in all && (s in todo || !Overflows(was[s]))
        decreases todo
      {
        var s :| s in todo;
        todo := todo - {s};
        SendOrDrop(s, frame, s in doneFirst);
      }
    }

    /** Only the call that finds the session open closes the PTY; `closeOk` is how that went. */
    method Kill(closeOk: bool) returns (ok: bool)
      modifies this`closed, this`ptyCloses
      ensures closed && ok == (old(closed) || closeOk)
      ensures ptyCloses == old(ptyCloses) + if old(closed) then 0 else 1
    {
      if closed {
        return true;
      }
      closed := true;
      ptyCloses := ptyCloses + 1;
      ok := closeOk;
    }

    /** The PTY call in the middle either fails or takes effect. */
    method Resize(c: int, r: int, ptyOk: bool, now: int) returns (result: ResizeResult)
      requires Valid()
      modifies this
      ensures Valid()
      ensures result == if !ValidSize(c, r) then InvalidDimensions
                        else if closed then SessionClosed
                        else if (old(cols) == c && old(rows) == r) || ptyOk then Resized
                        else PtyError
      ensures Value() == if result == Resized && !(old(cols) == c && old(rows) == r)
                         then SizeRecorded(old(Value()), c, r, now) else old(Value())
    {
      if c < 1 || c > MAX_COLS || r < 1 || r > MAX_ROWS {
        return InvalidDimensions;
      }
      if closed {
        return SessionClosed;
      }
      if cols == c && rows == r {
        return Resized;
      }
      if !ptyOk {
        return PtyError;
      }
      cols, rows := c, r;
      repaintUntil := Some(now + REPAINT_WINDOW);
      result := Resized;
    }

    /** Input counts as activity once the PTY has taken it. */
    method WriteInput(ptyOk: bool, now: int) returns (result: InputResult)
      modifies this`lastIO
      ensures result == if closed then InputRefused else if ptyOk then InputTaken else InputFailed
      ensures lastIO == if result == InputTaken then now else old(lastIO)
    {
      if closed {
        return InputRefused;
      }
      if !ptyOk {
        return InputFailed;
      }
      lastIO := now;
      result := InputTaken;
    }

    /** The end of the shell: record, tell everyone, then let everyone go. */
    method WaitExit(code: int, doneFirst: set<SubId>)
      requires Valid()
      modifies this
      ensures Valid()
      ensures subs == {} && subsNil && closed && exitCode == Some(code)
      ensures members.Keys == old(members.Keys)
      ensures forall s :: s in old(subs) ==>
                var m := old(members[s]);
                && members[s].cancelled
                && members[s].queue == if Accepts(m, s in doneFirst) then m.queue + [Exit(code)] else m.queue
      ensures forall s :: s in old(members) && s !in old(subs) ==> members[s] == old(members[s])
    {
      exitCode, closed := Some(code), true;
      Fanout(Exit(code), doneFirst);
      var last := subs;
      subs, subsNil := {}, true;
      Cancel(last);
    }
  }

  lemma CancelOne(members: map<SubId, Member>, s: SubId)
    requires s in members
    ensures CancelledIn(members, {s}) == members[s := members[s].(cancelled := true)]
  {
  }

  lemma DroppedTouchesNobody(c: Core, o: Output)
    requires Dropped(c.repaintUntil, o.data, o.now)
    ensures LostTo(c, o) == {} && Delivered(c, o) == c.members
  {
  }
}
